/** The HTTP header printer and parser (src/common/network/framing/http.hpp), field lines of section 5 of RFC 9112. */
module HttpHeaders {
  import opened Strings
  import opened Wrappers

  const CRLF := "\r\n"
  const BLANKS := " \t"

  datatype Headers = Headers(authorization: string, contentType: string, userAgent: string, requestId: string)

  const DefaultHeaders := Headers("", "application/json", "MPC-Engine/1.0", "")

  // ---------- printing ----------

  function Line(key: string, value: string): string {
    key + ": " + value
  }

  /** The lines printed; two of the four are left out when empty. */
  function Lines(h: Headers): seq<string> {
    (if h.authorization == "" then [] else [Line("Authorization", h.authorization)])
    + [Line("Content-Type", h.contentType), Line("User-Agent", h.userAgent)]
    + (if h.requestId == "" then [] else [Line("X-Request-ID", h.requestId)])
  }

  function Text(lines: seq<string>): string {
    if lines == [] then "" else lines[0] + CRLF + Text(lines[1..])
  }

  // ---------- parsing ----------

  predicate CrLfAt(s: string, i: nat) {
    i + 2 <= |s| && s[i] == '\r' && s[i + 1] == '\n'
  }

  ghost predicate NoCrLf(s: string) {
    forall i: nat :: !CrLfAt(s, i)
  }

  /** s.find("\r\n", pos). */
  function FindCrLf(s: string, pos: nat): (r: Option<nat>)
    ensures r.Some? ==> pos <= r.value && CrLfAt(s, r.value) && forall i :: pos <= i < r.value ==> !CrLfAt(s, i)
    ensures r.None? ==> forall i :: pos <= i ==> !CrLfAt(s, i)
    decreases |s| - pos
  {
    if pos + 2 > |s| then None else if CrLfAt(s, pos) then Some(pos) else FindCrLf(s, pos + 1)
  }

  /** Leading blanks cut off, unless there is nothing else. */
  function Stripped(value: string): string {
    var start := FirstNotOf(value, BLANKS);
    if start.Some? then value[start.value..] else value
  }

  function Assign(h: Headers, key: string, value: string): Headers {
    if key == "Authorization" then h.(authorization := value)
    else if key == "Content-Type" then h.(contentType := value)
    else if key == "User-Agent" then h.(userAgent := value)
    else if key == "X-Request-ID" then h.(requestId := value)
    else h
  }

  function ReadLine(line: string, h: Headers): Headers {
    var colon := Find(line, ':');
    if colon.None? then h else Assign(h, line[..colon.value], Stripped(line[colon.value + 1..]))
  }

  function Parsed(text: string, pos: nat, h: Headers): Headers
    decreases |text| - pos
  {
    if pos >= |text| then h
    else
      var end := FindCrLf(text, pos);
      if end.None? then h else Parsed(text, end.value + 2, ReadLine(text[pos..end.value], h))
  }

  class HttpHeaders {
    var authorization: string
    var contentType: string
    var userAgent: string
    var requestId: string

    ghost function Value(): Headers
      reads this
    {
      Headers(authorization, contentType, userAgent, requestId)
    }

    constructor ()
      ensures Value() == Headers("", "application/json", "MPC-Engine/1.0", "")
    {
      authorization, contentType, userAgent, requestId := "", "application/json", "MPC-Engine/1.0", "";
    }

    method ToString() returns (text: string)
      ensures text == Text(Lines(Value()))
    {
      hide Text, Lines;
      text := "";
      if authorization != "" {
        text := text + ("Authorization" + ": " + authorization + "\r\n");
      }
      text := text + ("Content-Type" + ": " + contentType + "\r\n");
      text := text + ("User-Agent" + ": " + userAgent + "\r\n");
      ghost var before := text;
      if requestId != "" {
        text := text + ("X-Request-ID" + ": " + requestId + "\r\n");
      } else {
        assert text == before + "";
      }
      TextOfHeaders(Value());
    }

    /** One turn of the loop in FromString: a line without its end. */
    method ReadField(line: string)
      modifies this
      ensures Value() == ReadLine(line, old(Value()))
    {
      var colon := Find(line, ':');
      if colon.Some? {
        var key := line[..colon.value];
        var value := Stripped(line[colon.value + 1..]);
        if key == "Authorization" {
          authorization := value;
        } else if key == "Content-Type" {
          contentType := value;
        } else if key == "User-Agent" {
          userAgent := value;
        } else if key == "X-Request-ID" {
          requestId := value;
        }
      }
    }

    method FromString(text: string)
      modifies this
      ensures Value() == Parsed(text, 0, old(Value()))
    {
      hide ReadLine, FindCrLf;
      var pos: nat := 0;
      while pos < |text|
        invariant Parsed(text, pos, Value()) == Parsed(text, 0, old(Value()))
        decreases |text| - pos
      {
        var lineEnd := FindCrLf(text, pos);
        if lineEnd.None? {
          break;
        }
        ReadField(text[pos..lineEnd.value]);
        pos := lineEnd.value + 2;
      }
    }
  }

  lemma {:induction false} TextAppend(ls: seq<string>, ms: seq<string>)
    ensures Text(ls + ms) == Text(ls) + Text(ms)
  {
    if ls == [] {
      assert ls + ms == ms;
    } else {
      assert (ls + ms)[1..] == ls[1..] + ms;
      TextAppend(ls[1..], ms);
    }
  }

  lemma TextOfLine(key: string, value: string)
    ensures Text([Line(key, value)]) == key + ": " + value + "\r\n"
  {
  }

  lemma TextOfHeaders(h: Headers)
    ensures Text(Lines(h)) ==
            (if h.authorization == "" then "" else "Authorization" + ": " + h.authorization + "\r\n")
            + ("Content-Type" + ": " + h.contentType + "\r\n")
            + ("User-Agent" + ": " + h.userAgent + "\r\n")
            + (if h.requestId == "" then "" else "X-Request-ID" + ": " + h.requestId + "\r\n")
  {
    hide Text, Line;
    var a := if h.authorization == "" then [] else [Line("Authorization", h.authorization)];
    var c, u := [Line("Content-Type", h.contentType)], [Line("User-Agent", h.userAgent)];
    var x := if h.requestId == "" then [] else [Line("X-Request-ID", h.requestId)];
    assert Lines(h) == a + c + u + x;
    TextAppend(a + c + u, x);
    TextAppend(a + c, u);
    TextAppend(a, c);
    EmptyText();
    TextOfLine("Authorization", h.authorization);
    TextOfLine("Content-Type", h.contentType);
    TextOfLine("User-Agent", h.userAgent);
    TextOfLine("X-Request-ID", h.requestId);
  }

  lemma EmptyText()
    ensures Text([]) == ""
  {
  }

  // ---------- the round trip ----------

  /** The end of a line without CRLF is found where it was printed, even when it ends in CR. */
  lemma LineAt(before: string, line: string, after: string)
    requires NoCrLf(line)
    ensures FindCrLf(before + line + CRLF + after, |before|) == Some(|before + line|)
  {
    var s := before + line + CRLF + after;
    forall i: nat | |before| <= i < |before| + |line|
      ensures !CrLfAt(s, i)
    {
      assert !CrLfAt(line, i - |before|);
    }
    assert CrLfAt(s, |before + line|);
  }

  function ReadLines(lines: seq<string>, h: Headers): Headers {
    if lines == [] then h else ReadLines(lines[1..], ReadLine(lines[0], h))
  }

  lemma {:induction false} TextParsed(before: string, lines: seq<string>, h: Headers)
    requires forall l :: l in lines ==> NoCrLf(l)
    ensures Parsed(before + Text(lines), |before|, h) == ReadLines(lines, h)
    decreases |lines|
  {
    hide ReadLine, FindCrLf, NoCrLf;
    var s := before + Text(lines);
    if lines != [] {
      var line, rest := lines[0], Text(lines[1..]);
      var before' := before + line + CRLF;
      assert s == before + line + CRLF + rest == before' + rest;
      LineAt(before, line, rest);
      assert s[|before|..|before + line|] == line;
      TextParsed(before', lines[1..], ReadLine(line, h));
    }
  }

  /** The line of a header sets it to the value, stripped of its separator. */
  lemma ReadBack(key: string, value: string, h: Headers)
    requires ':' !in key
    ensures ReadLine(Line(key, value), h) == Assign(h, key, Stripped(" " + value))
  {
    hide Assign, Stripped;
    var line := Line(key, value);
    assert line == key + [':'] + (" " + value);
    FindAfter(key, ':', " " + value);
    assert line[..|key|] == key && line[|key| + 1..] == " " + value;
  }

  /** A value that comes back as it was printed. */
  predicate Printable(value: string) {
    value != "" && value[0] != ' ' && value[0] != '\t'
  }

  lemma StrippedBack(value: string)
    ensures Stripped(" " + value) == value <==> Printable(value)
  {
    var v := " " + value;
    if Printable(value) {
      assert v[0] in BLANKS && v[1] == value[0];
      assert FirstNotOf(v, BLANKS) == Some(1);
      assert v[1..] == value;
    } else if FirstNotOf(v, BLANKS).Some? {
      assert v[0] in BLANKS && (value != "" ==> v[1] == value[0]);
      assert FirstNotOf(v, BLANKS).value >= 2;
    }
  }

  ghost predicate AllNoCrLf(h: Headers) {
    NoCrLf(h.authorization) && NoCrLf(h.contentType) && NoCrLf(h.userAgent) && NoCrLf(h.requestId)
  }

  lemma SliceNoCrLf(s: string, from: nat, to: nat)
    requires from <= to <= |s| && forall i :: from <= i < to ==> !CrLfAt(s, i)
    ensures NoCrLf(s[from..to])
  {
    forall i: nat
      ensures !CrLfAt(s[from..to], i)
    {
      if i + 2 <= to - from { assert !CrLfAt(s, from + i); }
    }
  }

  lemma SuffixNoCrLf(s: string, from: nat)
    requires NoCrLf(s) && from <= |s|
    ensures NoCrLf(s[from..])
  {
    SliceNoCrLf(s, from, |s|);
    assert s[from..] == s[from..|s|];
  }

  lemma ReadLineNoCrLf(line: string, h: Headers)
    requires NoCrLf(line) && AllNoCrLf(h)
    ensures AllNoCrLf(ReadLine(line, h))
  {
    hide NoCrLf, AllNoCrLf, Assign;
    var colon := Find(line, ':');
    if colon.Some? {
      var value := line[colon.value + 1..];
      SuffixNoCrLf(line, colon.value + 1);
      var start := FirstNotOf(value, BLANKS);
      if start.Some? { SuffixNoCrLf(value, start.value); }
      AssignNoCrLf(h, line[..colon.value], Stripped(value));
    }
  }

  lemma AssignNoCrLf(h: Headers, key: string, value: string)
    requires AllNoCrLf(h) && NoCrLf(value)
    ensures AllNoCrLf(Assign(h, key, value))
  {
    hide NoCrLf;
  }

  /** What is parsed into fields free of CRLF is free of CRLF. */
  lemma {:induction false} ParsedNoCrLf(text: string, pos: nat, h: Headers)
    requires AllNoCrLf(h)
    ensures AllNoCrLf(Parsed(text, pos, h))
    decreases |text| - pos
  {
    hide ReadLine, NoCrLf, AllNoCrLf, FindCrLf, CrLfAt;
    if pos < |text| {
      var end := FindCrLf(text, pos);
      if end.Some? {
        assert end.value + 2 <= |text| by { AtInside(text, end.value); }
        SliceNoCrLf(text, pos, end.value);
        ReadLineNoCrLf(text[pos..end.value], h);
        ParsedNoCrLf(text, end.value + 2, ReadLine(text[pos..end.value], h));
      }
    }
  }

  lemma AtInside(s: string, i: nat)
    requires CrLfAt(s, i)
    ensures i + 2 <= |s|
  {
  }

  lemma LineNoCrLf(key: string, value: string)
    requires NoCrLf(value) && forall c :: c in key ==> c != '\r'
    ensures NoCrLf(Line(key, value))
  {
    var line := Line(key, value);
    forall i: nat
      ensures !CrLfAt(line, i)
    {
      var k := i - |key| - 2;
      if i < |key| {
        assert line[i] == key[i] && key[i] in key;
      } else if 0 <= k && k + 2 <= |value| {
        assert line[i] == value[k] && line[i + 1] == value[k + 1];
        assert !CrLfAt(value, k);
      }
    }
  }

  /** The four values as they come back. */
  function Back(h: Headers): Headers {
    Headers(if h.authorization == "" then "" else Stripped(" " + h.authorization),
            Stripped(" " + h.contentType), Stripped(" " + h.userAgent),
            if h.requestId == "" then "" else Stripped(" " + h.requestId))
  }

  lemma {:induction false} ReadLinesAppend(ls: seq<string>, line: string, h: Headers)
    ensures ReadLines(ls + [line], h) == ReadLine(line, ReadLines(ls, h))
    decreases |ls|
  {
    hide ReadLine;
    if ls == [] {
      assert ls + [line] == [line];
      assert ReadLines([line][1..], ReadLine(line, h)) == ReadLine(line, h);
    } else {
      assert (ls + [line])[1..] == ls[1..] + [line];
      ReadLinesAppend(ls[1..], line, ReadLine(ls[0], h));
    }
  }

  lemma LinesReadBack(h: Headers)
    ensures ReadLines(Lines(h), DefaultHeaders) == Back(h)
  {
    hide ReadLine, ReadLines, Line, Stripped;
    var a := if h.authorization == "" then [] else [Line("Authorization", h.authorization)];
    var c, u := Line("Content-Type", h.contentType), Line("User-Agent", h.userAgent);
    var x := Line("X-Request-ID", h.requestId);
    assert Lines(h) == if h.requestId == "" then a + [c] + [u] else a + [c] + [u] + [x];
    NoLinesRead();
    ReadLinesAppend([], Line("Authorization", h.authorization), DefaultHeaders);
    ReadBack("Authorization", h.authorization, DefaultHeaders);
    var h1 := ReadLines(a, DefaultHeaders);
    assert h1 == DefaultHeaders.(authorization := Back(h).authorization) by {
      assert [] + [Line("Authorization", h.authorization)] == [Line("Authorization", h.authorization)];
    }
    ReadLinesAppend(a, c, DefaultHeaders);
    ReadBack("Content-Type", h.contentType, h1);
    ReadLinesAppend(a + [c], u, DefaultHeaders);
    ReadBack("User-Agent", h.userAgent, ReadLines(a + [c], DefaultHeaders));
    ReadLinesAppend(a + [c] + [u], x, DefaultHeaders);
    ReadBack("X-Request-ID", h.requestId, ReadLines(a + [c] + [u], DefaultHeaders));
  }

  lemma NoLinesRead()
    ensures ReadLines([], DefaultHeaders) == DefaultHeaders
  {
  }

  lemma PrintedParsed(h: Headers)
    requires AllNoCrLf(h)
    ensures Parsed(Text(Lines(h)), 0, DefaultHeaders) == Back(h)
  {
    hide NoCrLf, Line, Parsed, Text, Back;
    LineNoCrLf("Authorization", h.authorization);
    LineNoCrLf("Content-Type", h.contentType);
    LineNoCrLf("User-Agent", h.userAgent);
    LineNoCrLf("X-Request-ID", h.requestId);
    TextParsed("", Lines(h), DefaultHeaders);
    assert "" + Text(Lines(h)) == Text(Lines(h));
    LinesReadBack(h);
  }

  lemma DefaultNoCrLf()
    ensures AllNoCrLf(DefaultHeaders)
  {
  }

  /**
   * Parsing the printed form into a fresh object gives the headers back exactly if no value contains
   * CRLF, every non-empty value starts with something else than a blank, and the two headers that are
   * always printed are not empty.
   */
  lemma HeadersRoundTrip(h: Headers)
    ensures Parsed(Text(Lines(h)), 0, DefaultHeaders) == h <==>
            && AllNoCrLf(h)
            && (h.authorization == "" || Printable(h.authorization))
            && Printable(h.contentType) && Printable(h.userAgent)
            && (h.requestId == "" || Printable(h.requestId))
  {
    hide Text, Lines, Parsed, AllNoCrLf, Stripped, Printable;
    DefaultNoCrLf();
    ParsedNoCrLf(Text(Lines(h)), 0, DefaultHeaders);
    if AllNoCrLf(h) {
      PrintedParsed(h);
      StrippedBack(h.authorization);
      StrippedBack(h.contentType);
      StrippedBack(h.userAgent);
      StrippedBack(h.requestId);
    }
  }

  // ---------- lines that mean nothing ----------

  /** No line of one of the four headers. */
  predicate Foreign(line: string) {
    && !("Authorization:" <= line) && !("Content-Type:" <= line)
    && !("User-Agent:" <= line) && !("X-Request-ID:" <= line)
  }

  lemma KeyIsPrefix(line: string, key: string, colon: nat)
    requires colon < |line| && line[colon] == ':' && line[..colon] == key
    ensures key + ":" <= line
  {
    assert line[..colon + 1] == key + ":";
  }

  lemma ForeignReadsNothing(line: string, h: Headers)
    requires Foreign(line)
    ensures ReadLine(line, h) == h
  {
    hide Stripped;
    var colon := Find(line, ':');
    if colon.Some? {
      KeyIsPrefix(line, line[..colon.value], colon.value);
      assert "Authorization" + ":" == "Authorization:" && "Content-Type" + ":" == "Content-Type:";
      assert "User-Agent" + ":" == "User-Agent:" && "X-Request-ID" + ":" == "X-Request-ID:";
    }
  }

  lemma {:induction false} ReadLinesConcat(a: seq<string>, b: seq<string>, h: Headers)
    ensures ReadLines(a + b, h) == ReadLines(b, ReadLines(a, h))
    decreases |a|
  {
    hide ReadLine;
    if a == [] {
      assert a + b == b;
    } else {
      assert (a + b)[1..] == a[1..] + b;
      ReadLinesConcat(a[1..], b, ReadLine(a[0], h));
    }
  }

  /** A line of any other field, or of none, may stand anywhere in the text without effect. */
  lemma ForeignLineIgnored(a: seq<string>, line: string, b: seq<string>, h: Headers)
    requires forall l :: l in a || l in b ==> NoCrLf(l)
    requires NoCrLf(line) && Foreign(line)
    ensures Parsed(Text(a + [line] + b), 0, h) == Parsed(Text(a + b), 0, h)
  {
    hide NoCrLf, Parsed, Text, ReadLine, Foreign;
    TextParsed("", a + [line] + b, h);
    TextParsed("", a + b, h);
    assert "" + Text(a + [line] + b) == Text(a + [line] + b) && "" + Text(a + b) == Text(a + b);
    ReadLinesConcat(a + [line], b, h);
    ReadLinesAppend(a, line, h);
    ForeignReadsNothing(line, ReadLines(a, h));
    ReadLinesConcat(a, b, h);
  }

  lemma NoLineLeft(before: string, tail: string, h: Headers)
    requires NoCrLf(tail)
    ensures Parsed(before + tail, |before|, h) == h
  {
    var s := before + tail;
    forall i: nat | |before| <= i
      ensures !CrLfAt(s, i)
    {
      assert !CrLfAt(tail, i - |before|);
    }
  }

  /** What stands behind the last line end is not read. */
  lemma {:induction false} UnterminatedIgnored(before: string, lines: seq<string>, tail: string, h: Headers)
    requires (forall l :: l in lines ==> NoCrLf(l)) && NoCrLf(tail)
    ensures Parsed(before + Text(lines) + tail, |before|, h) == ReadLines(lines, h)
    decreases |lines|
  {
    hide ReadLine, FindCrLf, NoCrLf;
    var s := before + Text(lines) + tail;
    if lines == [] {
      assert s == before + tail;
      NoLineLeft(before, tail, h);
    } else {
      var line, rest := lines[0], Text(lines[1..]) + tail;
      var before' := before + line + CRLF;
      assert s == before + line + CRLF + rest;
      assert s == before' + Text(lines[1..]) + tail;
      LineAt(before, line, rest);
      assert s[|before|..|before + line|] == line;
      UnterminatedIgnored(before', lines[1..], tail, ReadLine(line, h));
    }
  }
}
