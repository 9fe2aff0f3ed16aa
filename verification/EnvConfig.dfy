/** The .env reader and its list and endpoint parsers (src/common/env/EnvConfig.cpp). */
module EnvConfig {
  import opened Strings
  import opened Wrappers

  const BLANKS := " \t"
  const LINE_BLANKS := " \t\r\n"

  datatype Error = Missing | EmptyArray | NoColon | EmptyHost | BadPort

  datatype Endpoint = Endpoint(host: string, port: nat)

  // ---------- lists ----------

  /** What getline with a comma yields: a last token that is empty is not seen. */
  function Split(s: string): seq<string> {
    if s == "" then []
    else
      var comma := Find(s, ',');
      if comma.None? then [s] else [s[..comma.value]] + Split(s[comma.value + 1..])
  }

  function Kept(tokens: seq<string>): seq<string> {
    if tokens == [] then []
    else (if Trim(tokens[0], BLANKS) == "" then [] else [Trim(tokens[0], BLANKS)]) + Kept(tokens[1..])
  }

  function Items(value: string): seq<string> {
    Kept(Split(value))
  }

  /** GetStringArray of a key with this value; no key is an empty value. */
  function StringArray(value: string): Result<seq<string>, Error> {
    if value == "" then Err(Missing) else if Items(value) == [] then Err(EmptyArray) else Ok(Items(value))
  }

  // ---------- numbers and endpoints ----------

  predicate IsDigit(c: char) {
    '0' <= c <= '9'
  }

  function DigitOf(c: char): nat
    requires IsDigit(c)
  {
    c as int - '0' as int
  }

  /** The digits s begins with, as a number appended to acc. */
  function ReadDigits(s: string, acc: nat): nat {
    if s == "" || !IsDigit(s[0]) then acc else ReadDigits(s[1..], 10 * acc + DigitOf(s[0]))
  }

  const ULONG_COUNT := 0x1_0000_0000_0000_0000
  const SPACES := " \t\n\r\U{000B}\U{000C}"

  /** std::stoul: white space, a sign, digits, anything; a minus sign negates modulo 2^64. */
  function Stoul(s: string): Option<nat> {
    var start := FirstNotOf(s, SPACES);
    if start.None? then None
    else
      var signed := s[start.value] == '+' || s[start.value] == '-';
      var digits := if signed then s[start.value + 1..] else s[start.value..];
      if digits == "" || !IsDigit(digits[0]) then None
      else
        var v := ReadDigits(digits, 0);
        if v >= ULONG_COUNT then None
        else Some(if s[start.value] == '-' then (ULONG_COUNT - v) % ULONG_COUNT else v)
  }

  function ReadEndpoint(text: string): Result<Endpoint, Error> {
    var colon := Find(text, ':');
    if colon.None? then Err(NoColon)
    else
      var host, port := Trim(text[..colon.value], BLANKS), Trim(text[colon.value + 1..], BLANKS);
      if host == "" then Err(EmptyHost)
      else
        var parsed := Stoul(port);
        if parsed.None? || parsed.value == 0 || parsed.value > 65535 then Err(BadPort)
        else Ok(Endpoint(host, parsed.value))
  }

  function ReadEndpoints(texts: seq<string>): Result<seq<Endpoint>, Error> {
    if texts == [] then Ok([])
    else
      var e :- ReadEndpoint(texts[0]);
      var rest :- ReadEndpoints(texts[1..]);
      Ok([e] + rest)
  }

  function NodeEndpoints(value: string): Result<seq<Endpoint>, Error> {
    var texts :- StringArray(value);
    ReadEndpoints(texts)
  }

  // ---------- lines ----------

  /** ParseLine: the new settings, and whether the line was accepted. */
  function ParsedLine(config: map<string, string>, line: string): (map<string, string>, bool) {
    var trimmed := Trim(line, LINE_BLANKS);
    if trimmed == "" || trimmed[0] == '#' then (config, true)
    else
      var eq := Find(trimmed, '=');
      if eq.None? then (config, false)
      else
        var key, value := Trim(trimmed[..eq.value], BLANKS), Trim(trimmed[eq.value + 1..], BLANKS);
        if key == "" then (config, false) else (config[key := value], true)
  }

  class EnvConfig {
    var configMap: map<string, string>

    constructor ()
      ensures configMap == map[]
    {
      configMap := map[];
    }

    function Setting(key: string): string
      reads this
    {
      if key in configMap then configMap[key] else ""
    }

    method ParseLine(line: string) returns (accepted: bool)
      modifies this
      ensures (configMap, accepted) == ParsedLine(old(configMap), line)
    {
      var trimmed := Trim(line, LINE_BLANKS);
      if trimmed == "" || trimmed[0] == '#' {
        return true;
      }
      var eq := Find(trimmed, '=');
      if eq.None? {
        return false;
      }
      var key := Trim(trimmed[..eq.value], BLANKS);
      var value := Trim(trimmed[eq.value + 1..], BLANKS);
      if key != "" {
        configMap := configMap[key := value];
        return true;
      }
      return false;
    }

    method GetStringArray(key: string) returns (result: Result<seq<string>, Error>)
      ensures result == StringArray(Setting(key))
    {
      hide Items, Trim, TokenEnd;
      var value := Setting(key);
      if value == "" {
        return Err(Missing);
      }
      var items: seq<string> := [];
      var pos: nat := 0;
      assert value[0..] == value;
      while pos < |value|
        invariant pos <= |value|
        invariant items + Items(value[pos..]) == Items(value)
        decreases |value| - pos
      {
        ItemSplitOff(value, pos, items);
        var end := TokenEnd(value, pos);
        var item := Trim(value[pos..end], BLANKS);
        if item != "" {
          items := items + [item];
        }
        pos := if end < |value| then end + 1 else end;
      }
      assert value[pos..] == "";
      NoItems();
      assert items + [] == items;
      if items == [] {
        return Err(EmptyArray);
      }
      result := Ok(items);
    }

    method GetNodeEndpoints(key: string) returns (result: Result<seq<Endpoint>, Error>)
      ensures result == NodeEndpoints(Setting(key))
    {
      hide StringArray, ReadEndpoint, ReadEndpoints;
      var texts := GetStringArray(key);
      if texts.Err? {
        return Err(texts.error);
      }
      var endpoints: seq<Endpoint> := [];
      assert texts.value[0..] == texts.value;
      NothingBefore(ReadEndpoints(texts.value));
      for i := 0 to |texts.value|
        invariant Prepend(endpoints, ReadEndpoints(texts.value[i..])) == ReadEndpoints(texts.value)
      {
        ReadNext(texts.value, i, endpoints);
        var text := texts.value[i];
        var e := ReadEndpoint(text);
        if e.Err? {
          return Err(e.error);
        }
        endpoints := endpoints + [e.value];
      }
      NoEndpoints(texts.value);
      assert endpoints + [] == endpoints;
      result := Ok(endpoints);
    }
  }

  function Prepend(es: seq<Endpoint>, r: Result<seq<Endpoint>, Error>): Result<seq<Endpoint>, Error> {
    if r.Ok? then Ok(es + r.value) else r
  }

  lemma ReadNext(texts: seq<string>, i: nat, es: seq<Endpoint>)
    requires i < |texts|
    ensures Prepend(es, ReadEndpoints(texts[i..])) ==
            var e := ReadEndpoint(texts[i]);
            if e.Err? then Err(e.error) else Prepend(es + [e.value], ReadEndpoints(texts[i + 1..]))
  {
    hide ReadEndpoint;
    assert texts[i..][1..] == texts[i + 1..];
    var e, rest := ReadEndpoint(texts[i]), ReadEndpoints(texts[i + 1..]);
    if e.Ok? && rest.Ok? { assert es + ([e.value] + rest.value) == es + [e.value] + rest.value; }
  }

  lemma NothingBefore(r: Result<seq<Endpoint>, Error>)
    ensures Prepend([], r) == r
  {
    if r.Ok? { assert [] + r.value == r.value; }
  }

  lemma NoEndpoints(texts: seq<string>)
    ensures ReadEndpoints(texts[|texts|..]) == Ok([])
  {
  }

  lemma NoItems()
    ensures Items("") == []
  {
  }

  lemma FindFrom(s: string, c: char, pos: nat)
    requires pos <= |s|
    ensures var r := Find(s, c, pos);
            Find(s[pos..], c) == if r.None? then None else Some(r.value - pos)
  {
    var r, r' := Find(s, c, pos), Find(s[pos..], c);
    assert forall i :: pos <= i < |s| ==> s[i] == s[pos..][i - pos];
  }

  lemma SplitFirst(s: string)
    requires s != ""
    ensures var comma := Find(s, ',');
            Split(s) == if comma.None? then [s] + Split("") else [s[..comma.value]] + Split(s[comma.value + 1..])
  {
    hide Find;
    assert [s] + [] == [s];
  }

  lemma SplitStep(s: string, pos: nat)
    requires pos < |s|
    ensures var comma := Find(s, ',', pos);
            Split(s[pos..]) == [if comma.None? then s[pos..] else s[pos..comma.value]]
                               + Split(if comma.None? then "" else s[comma.value + 1..])
  {
    hide Find, Split;
    var rest, comma := s[pos..], Find(s, ',', pos);
    FindFrom(s, ',', pos);
    SplitFirst(rest);
    if comma.Some? {
      var k := comma.value - pos;
      assert rest[..k] == s[pos..comma.value];
      assert rest[k + 1..] == s[comma.value + 1..];
    }
  }

  lemma KeptStep(token: string, tokens: seq<string>)
    ensures Kept([token] + tokens) ==
            (if Trim(token, BLANKS) == "" then [] else [Trim(token, BLANKS)]) + Kept(tokens)
  {
    hide Trim;
    assert ([token] + tokens)[1..] == tokens;
  }

  /** Where the token that begins at pos ends: at the next comma or with the text. */
  function TokenEnd(s: string, pos: nat): (end: nat)
    requires pos <= |s|
    ensures pos <= end <= |s|
  {
    var comma := Find(s, ',', pos);
    if comma.None? then |s| else comma.value
  }

  /** One turn of the loop over a list. */
  lemma ItemSplitOff(s: string, pos: nat, items: seq<string>)
    requires pos < |s| && items + Items(s[pos..]) == Items(s)
    ensures var end := TokenEnd(s, pos);
            var item := Trim(s[pos..end], BLANKS);
            (if item == "" then items else items + [item]) + Items(s[if end < |s| then end + 1 else end..]) == Items(s)
  {
    hide Items, Trim, Find;
    SplitOff(s, pos);
    var end := TokenEnd(s, pos);
    var item := Trim(s[pos..end], BLANKS);
    var rest := s[if end < |s| then end + 1 else end..];
    assert s[pos..|s|] == s[pos..] && s[|s|..] == "";
    assert items + ((if item == "" then [] else [item]) + Items(rest))
           == (if item == "" then items else items + [item]) + Items(rest);
  }

  lemma SplitOff(s: string, pos: nat)
    requires pos < |s|
    ensures var comma := Find(s, ',', pos);
            var item := Trim(if comma.None? then s[pos..] else s[pos..comma.value], BLANKS);
            Items(s[pos..]) == (if item == "" then [] else [item])
                               + Items(if comma.None? then "" else s[comma.value + 1..])
  {
    hide Trim, Find, Split, Kept;
    var comma := Find(s, ',', pos);
    SplitStep(s, pos);
    KeptStep(if comma.None? then s[pos..] else s[pos..comma.value],
             Split(if comma.None? then "" else s[comma.value + 1..]));
  }

  // ---------- lists come back ----------

  function Join(texts: seq<string>): string {
    if texts == [] then "" else if |texts| == 1 then texts[0] else texts[0] + [','] + Join(texts[1..])
  }

  predicate Clean(item: string) {
    item != "" && Trimmed(item, " \t") && ',' !in item
  }

  datatype Padded = Padded(left: string, item: string, right: string) {
    predicate Proper() {
      AllIn(left, " \t") && AllIn(right, " \t") && Clean(item)
    }

    function Text(): string {
      left + item + right
    }
  }

  function Texts(ps: seq<Padded>): seq<string> {
    seq(|ps|, i requires 0 <= i < |ps| => ps[i].Text())
  }

  function ItemsOf(ps: seq<Padded>): seq<string> {
    seq(|ps|, i requires 0 <= i < |ps| => ps[i].item)
  }

  lemma {:induction false} SplitJoin(texts: seq<string>)
    requires forall t :: t in texts ==> t != "" && ',' !in t
    ensures Split(Join(texts)) == texts
  {
    if texts != [] { assert texts[0] in texts; }
    if |texts| == 1 {
      FindNone(texts[0], ',');
      assert texts == [texts[0]];
    } else if |texts| > 1 {
      var s := Join(texts);
      FindAfter(texts[0], ',', Join(texts[1..]));
      assert s[..|texts[0]|] == texts[0] && s[|texts[0]| + 1..] == Join(texts[1..]);
      assert forall t :: t in texts[1..] ==> t in texts;
      SplitJoin(texts[1..]);
    }
  }

  lemma {:induction false} KeptPadded(ps: seq<Padded>)
    requires forall p :: p in ps ==> p.Proper()
    ensures Kept(Texts(ps)) == ItemsOf(ps)
  {
    hide Trim;
    if ps != [] {
      assert ps[0] in ps;
      TrimPadded(ps[0].left, ps[0].item, ps[0].right, BLANKS);
      assert Texts(ps)[1..] == Texts(ps[1..]);
      KeptPadded(ps[1..]);
      assert ItemsOf(ps) == [ps[0].item] + ItemsOf(ps[1..]);
    }
  }

  lemma PaddedToken(p: Padded)
    requires p.Proper()
    ensures p.Text() != "" && ',' !in p.Text()
  {
  }

  /** A list of clean items comes back in order, whatever blanks stand around the commas. */
  lemma PaddedListRoundTrip(ps: seq<Padded>)
    requires ps != [] && forall p :: p in ps ==> p.Proper()
    ensures StringArray(Join(Texts(ps))) == Ok(ItemsOf(ps))
  {
    forall t | t in Texts(ps)
      ensures t != "" && ',' !in t
    {
      var i :| 0 <= i < |ps| && t == ps[i].Text();
      PaddedToken(ps[i]);
    }
    SplitJoin(Texts(ps));
    KeptPadded(ps);
  }

  lemma {:induction false} SplitNoComma(s: string)
    ensures forall t :: t in Split(s) ==> ',' !in t
  {
    hide Find;
    var comma := Find(s, ',');
    if s != "" {
      assert ',' !in (if comma.None? then s else s[..comma.value]);
      if comma.Some? { SplitNoComma(s[comma.value + 1..]); }
    }
  }

  lemma {:induction false} KeptClean(tokens: seq<string>)
    requires forall t :: t in tokens ==> ',' !in t
    ensures forall x :: x in Kept(tokens) ==> Clean(x)
  {
    if tokens != [] { KeptClean(tokens[1..]); }
  }

  /** Everything read from a list is clean. */
  lemma ItemsClean(value: string)
    ensures forall x :: x in Items(value) ==> Clean(x)
  {
    SplitNoComma(value);
    KeptClean(Split(value));
  }

  function Unpadded(items: seq<string>): seq<Padded> {
    seq(|items|, i requires 0 <= i < |items| => Padded("", items[i], ""))
  }

  lemma UnpaddedTexts(items: seq<string>)
    ensures Texts(Unpadded(items)) == items && ItemsOf(Unpadded(items)) == items
  {
    assert forall i :: 0 <= i < |items| ==> "" + items[i] + "" == items[i];
  }

  /** Joined by commas, exactly the lists of clean items come back. */
  lemma ListRoundTrip(items: seq<string>)
    ensures StringArray(Join(items)) == Ok(items) <==> items != [] && forall x :: x in items ==> Clean(x)
  {
    ItemsClean(Join(items));
    if items != [] && forall x :: x in items ==> Clean(x) {
      var ps := Unpadded(items);
      assert forall p :: p in ps ==> p.item in items;
      UnpaddedTexts(items);
      PaddedListRoundTrip(ps);
    }
  }

  // ---------- endpoints come back ----------

  function Decimal(n: nat): (s: string)
    ensures s != "" && forall i :: 0 <= i < |s| ==> IsDigit(s[i])
  {
    (if n < 10 then "" else Decimal(n / 10)) + [('0' as int + n % 10) as char]
  }

  lemma {:induction false} ReadDigitsAppend(s: string, d: char, acc: nat)
    requires IsDigit(d) && forall i :: 0 <= i < |s| ==> IsDigit(s[i])
    ensures ReadDigits(s + [d], acc) == 10 * ReadDigits(s, acc) + DigitOf(d)
    decreases |s|
  {
    if s == "" {
      assert s + [d] == [d] && [d][1..] == "";
    } else {
      assert (s + [d])[1..] == s[1..] + [d];
      ReadDigitsAppend(s[1..], d, 10 * acc + DigitOf(s[0]));
    }
  }

  lemma {:induction false} DecimalBack(n: nat)
    ensures ReadDigits(Decimal(n), 0) == n
  {
    var d := ('0' as int + n % 10) as char;
    if n < 10 {
      assert Decimal(n) == "" + [d];
      ReadDigitsAppend("", d, 0);
    } else {
      DecimalBack(n / 10);
      ReadDigitsAppend(Decimal(n / 10), d, 0);
    }
  }

  lemma StoulBack(n: nat)
    requires n < ULONG_COUNT
    ensures Stoul(Decimal(n)) == Some(n)
  {
    var s := Decimal(n);
    assert IsDigit(s[0]) && s[0] !in SPACES;
    assert FirstNotOf(s, SPACES) == Some(0);
    assert s[0..] == s;
    DecimalBack(n);
  }

  function Printed(e: Endpoint): string {
    e.host + [':'] + Decimal(e.port)
  }

  /** A host that can be told from the rest of an endpoint and of a list, and a port that fits. */
  predicate Good(e: Endpoint) {
    Clean(e.host) && ':' !in e.host && 1 <= e.port <= 65535
  }

  lemma DigitsPlain(n: nat)
    ensures forall c :: c in Decimal(n) ==> c != ',' && c !in BLANKS
  {
  }

  lemma TrimClean(x: string)
    requires Trimmed(x, BLANKS)
    ensures Trim(x, BLANKS) == x
  {
    TrimPadded("", x, "", BLANKS);
    assert "" + x + "" == x;
  }

  lemma PrintedClean(e: Endpoint)
    requires Good(e)
    ensures Clean(Printed(e)) && Trimmed(Decimal(e.port), BLANKS)
  {
    hide Decimal;
    var text, port := Printed(e), Decimal(e.port);
    DigitsPlain(e.port);
    assert port[0] in port && port[|port| - 1] in port;
    assert text[0] == e.host[0] && text[|text| - 1] == port[|port| - 1];
  }

  lemma EndpointBack(e: Endpoint)
    requires Good(e)
    ensures ReadEndpoint(Printed(e)) == Ok(e) && Clean(Printed(e))
  {
    hide Decimal, Stoul, Trim, Find, Trimmed;
    var text, port := Printed(e), Decimal(e.port);
    PrintedClean(e);
    FindAfter(e.host, ':', port);
    assert text[..|e.host|] == e.host && text[|e.host| + 1..] == port;
    TrimClean(e.host);
    TrimClean(port);
    StoulBack(e.port);
  }

  lemma ReadEndpointGood(text: string)
    requires ',' !in text && ReadEndpoint(text).Ok?
    ensures Good(ReadEndpoint(text).value)
  {
    hide Stoul;
  }

  lemma {:induction false} ReadEndpointsGood(texts: seq<string>)
    requires (forall t :: t in texts ==> ',' !in t) && ReadEndpoints(texts).Ok?
    ensures forall e :: e in ReadEndpoints(texts).value ==> Good(e)
  {
    hide ReadEndpoint, Good;
    if texts != [] {
      ReadEndpointGood(texts[0]);
      ReadEndpointsGood(texts[1..]);
    }
  }

  function PrintedAll(es: seq<Endpoint>): seq<string> {
    seq(|es|, i requires 0 <= i < |es| => Printed(es[i]))
  }

  lemma {:induction false} EndpointsBack(es: seq<Endpoint>)
    requires forall e :: e in es ==> Good(e)
    ensures ReadEndpoints(PrintedAll(es)) == Ok(es) && forall t :: t in PrintedAll(es) ==> Clean(t)
  {
    hide ReadEndpoint, Good, Printed, Clean;
    if es != [] {
      assert es[0] in es;
      EndpointBack(es[0]);
      EndpointsBack(es[1..]);
      assert PrintedAll(es)[1..] == PrintedAll(es[1..]);
      assert [es[0]] + es[1..] == es;
    }
  }

  /** Printed as host:port and joined by commas, exactly the lists of good endpoints come back, in order. */
  lemma EndpointsRoundTrip(es: seq<Endpoint>)
    ensures NodeEndpoints(Join(PrintedAll(es))) == Ok(es) <==> es != [] && forall e :: e in es ==> Good(e)
  {
    hide ReadEndpoints, Good, Items, Join;
    var value := Join(PrintedAll(es));
    if es != [] && forall e :: e in es ==> Good(e) {
      EndpointsBack(es);
      ListRoundTrip(PrintedAll(es));
    } else if NodeEndpoints(value).Ok? {
      ItemsClean(value);
      ReadEndpointsGood(Items(value));
      assert ReadEndpoints(Items(value)).value != [] by { SomeEndpoint(Items(value)); }
    }
  }

  lemma SomeEndpoint(texts: seq<string>)
    requires texts != [] && ReadEndpoints(texts).Ok?
    ensures ReadEndpoints(texts).value != []
  {
  }

  // ---------- lines ----------

  /** The line without its outer blanks; a gap before an empty value goes with them. */
  lemma TrimLine(left: string, key: string, mid: string, gap: string, value: string, right: string)
    requires AllIn(left, LINE_BLANKS) && AllIn(right, LINE_BLANKS) && AllIn(gap, BLANKS)
    requires key != "" && Trimmed(key, LINE_BLANKS) && Trimmed(value, LINE_BLANKS)
    ensures Trim(left + key + mid + "=" + gap + value + right, LINE_BLANKS) ==
            key + mid + ['='] + (if value == "" then "" else gap + value)
  {
    hide Trim;
    var after := if value == "" then "" else gap + value;
    var cut := if value == "" then gap + right else right;
    var core := key + mid + ['='] + after;
    assert left + key + mid + "=" + gap + value + right == left + core + cut;
    assert core[0] == key[0] && core[|core| - 1] == if value == "" then '=' else value[|value| - 1];
    assert AllIn(cut, LINE_BLANKS) && Trimmed(core, LINE_BLANKS);
    TrimPadded(left, core, cut, LINE_BLANKS);
  }

  lemma TrimParts(key: string, mid: string, gap: string, value: string)
    requires AllIn(mid, BLANKS) && AllIn(gap, BLANKS) && Trimmed(key, LINE_BLANKS) && Trimmed(value, LINE_BLANKS)
    ensures Trim(key + mid, BLANKS) == key
    ensures Trim(if value == "" then "" else gap + value, BLANKS) == value
  {
    hide Trim;
    TrimPadded("", key, mid, BLANKS);
    assert "" + key + mid == key + mid;
    TrimPadded(gap, value, "", BLANKS);
    assert gap + value + "" == gap + value;
    TrimPadded("", "", "", BLANKS);
    assert "" + "" + "" == "";
  }

  /** key=value with blanks anywhere a person may put them sets exactly this key to exactly this value. */
  lemma LineStores(config: map<string, string>, left: string, key: string, mid: string, gap: string,
                   value: string, right: string)
    requires AllIn(left, " \t\r\n") && AllIn(right, " \t\r\n") && AllIn(mid, " \t") && AllIn(gap, " \t")
    requires key != "" && Trimmed(key, " \t\r\n") && '=' !in key && key[0] != '#'
    requires Trimmed(value, " \t\r\n")
    ensures ParsedLine(config, left + key + mid + "=" + gap + value + right) == (config[key := value], true)
  {
    hide Trim, AllIn, Trimmed;
    var after := if value == "" then "" else gap + value;
    var core := (key + mid) + ['='] + after;
    TrimLine(left, key, mid, gap, value, right);
    assert '=' !in mid by { NotIn('=', mid, BLANKS); }
    FindAfter(key + mid, '=', after);
    assert core[0] == key[0];
    assert core[..|key + mid|] == key + mid && core[|key + mid| + 1..] == after;
    TrimParts(key, mid, gap, value);
  }

  lemma NotIn(c: char, s: string, ws: string)
    requires AllIn(s, ws) && c !in ws
    ensures c !in s
  {
  }

  /** From a line of the file to the endpoints: what was printed after the key comes back. */
  lemma LineToEndpoints(config: map<string, string>, key: string, es: seq<Endpoint>)
    requires key != "" && Trimmed(key, LINE_BLANKS) && '=' !in key && key[0] != '#'
    requires es != [] && (forall e :: e in es ==> Good(e)) && Trimmed(Join(PrintedAll(es)), LINE_BLANKS)
    ensures var (c, accepted) := ParsedLine(config, key + "=" + Join(PrintedAll(es)));
            && accepted && key in c && NodeEndpoints(c[key]) == Ok(es)
            && forall k :: k != key ==> (k in c <==> k in config) && (k in c ==> c[k] == config[k])
  {
    hide ParsedLine, Join, PrintedAll, Good, NodeEndpoints, Trimmed;
    var value := Join(PrintedAll(es));
    LineStores(config, "", key, "", "", value, "");
    assert "" + key + "" + "=" + "" + value + "" == key + "=" + value;
    EndpointsRoundTrip(es);
  }

  // ---------- what has no effect, and what is an error ----------

  /** The first character that counts stays the first. */
  lemma TrimStart(left: string, c: char, rest: string, ws: string)
    requires AllIn(left, ws) && c !in ws
    ensures Trim(left + [c] + rest, ws) != "" && Trim(left + [c] + rest, ws)[0] == c
  {
    var s := left + [c] + rest;
    assert s[|left|] == c;
    assert FirstNotOf(s, ws) == Some(|left|);
  }

  lemma TrimBlank(s: string, ws: string)
    requires AllIn(s, ws)
    ensures Trim(s, ws) == ""
  {
  }

  lemma TrimSubset(s: string, ws: string, c: char)
    requires c !in s
    ensures c !in Trim(s, ws)
  {
  }

  /**
   * Blank lines and comments are accepted, lines without = or with nothing before it are refused; none of
   * them changes any setting.
   */
  lemma LinesWithoutEffect(config: map<string, string>, left: string, rest: string)
    requires AllIn(left, " \t\r\n")
    ensures ParsedLine(config, left) == (config, true)
    ensures ParsedLine(config, left + "#" + rest) == (config, true)
    ensures ParsedLine(config, left + "=" + rest) == (config, false)
    ensures '=' !in rest && !AllIn(rest, LINE_BLANKS) && Trim(rest, LINE_BLANKS)[0] != '#' ==>
              ParsedLine(config, rest) == (config, false)
  {
    hide Trim, AllIn;
    TrimBlank(left, LINE_BLANKS);
    TrimStart(left, '#', rest, LINE_BLANKS);
    TrimStart(left, '=', rest, LINE_BLANKS);
    EqFirst(Trim(left + "=" + rest, LINE_BLANKS));
    if '=' !in rest {
      TrimSubset(rest, LINE_BLANKS, '=');
      FindNone(Trim(rest, LINE_BLANKS), '=');
    }
    if !AllIn(rest, LINE_BLANKS) { SomethingLeft(rest); }
  }

  lemma EqFirst(trimmed: string)
    requires trimmed != "" && trimmed[0] == '='
    ensures Find(trimmed, '=') == Some(0) && Trim(trimmed[..0], BLANKS) == ""
  {
  }

  lemma SomethingLeft(s: string)
    requires !AllIn(s, LINE_BLANKS)
    ensures Trim(s, LINE_BLANKS) != ""
  {
  }

  /** Any comma-free items, blank and empty ones among them, are split where they were joined. */
  lemma {:induction false} ItemsOfJoin(texts: seq<string>)
    requires forall t :: t in texts ==> ',' !in t
    ensures Items(Join(texts)) == Kept(texts)
    decreases |texts|
  {
    hide Trim;
    if texts != [] {
      assert texts[0] in texts;
      var rest := texts[1..];
      assert texts == [texts[0]] + rest;
      KeptStep(texts[0], rest);
      if |texts| == 1 {
        OneItem(texts[0]);
      } else {
        assert forall t :: t in rest ==> t in texts;
        ItemsOfJoin(rest);
        SplitAtComma(texts[0], Join(rest));
        KeptStep(texts[0], Split(Join(rest)));
      }
    }
  }

  lemma OneItem(t: string)
    requires ',' !in t
    ensures Items(t) == Kept([t])
  {
    FindNone(t, ',');
    if t == "" { TrimBlank(t, BLANKS); }
  }

  lemma SplitAtComma(t: string, rest: string)
    requires ',' !in t
    ensures Split(t + [','] + rest) == [t] + Split(rest)
  {
    var s := t + [','] + rest;
    FindAfter(t, ',', rest);
    assert s[..|t|] == t && s[|t| + 1..] == rest;
  }

  /** Blank and empty items are dropped wherever they stand. */
  lemma BlankItemsDropped(a: seq<string>, blank: string, b: seq<string>)
    requires (forall t :: t in a || t in b ==> ',' !in t) && AllIn(blank, " \t")
    ensures Items(Join(a + [blank] + b)) == Items(Join(a + b))
  {
    hide Items, Kept, Join, Trim;
    assert ',' !in blank by { NotIn(',', blank, BLANKS); }
    ItemsOfJoin(a + [blank] + b);
    ItemsOfJoin(a + b);
    TrimBlank(blank, BLANKS);
    KeptConcat(a + [blank], b);
    KeptConcat(a, [blank]);
    KeptStep(blank, []);
    KeptConcat(a, b);
    assert [blank] + [] == [blank];
    assert Kept([]) == [] by { NothingKept(); }
  }

  lemma NothingKept()
    ensures Kept([]) == []
  {
  }

  lemma {:induction false} KeptConcat(a: seq<string>, b: seq<string>)
    ensures Kept(a + b) == Kept(a) + Kept(b)
  {
    hide Trim;
    if a == [] {
      assert a + b == b;
    } else {
      assert (a + b)[1..] == a[1..] + b;
      KeptConcat(a[1..], b);
    }
  }

  // ---------- numbers ----------

  lemma {:induction false} DigitsThenTail(s: string, tail: string, acc: nat)
    requires forall i :: 0 <= i < |s| ==> IsDigit(s[i])
    requires tail == "" || !IsDigit(tail[0])
    ensures ReadDigits(s + tail, acc) == ReadDigits(s, acc)
    decreases |s|
  {
    if s == "" {
      assert s + tail == tail;
    } else {
      assert (s + tail)[1..] == s[1..] + tail;
      DigitsThenTail(s[1..], tail, 10 * acc + DigitOf(s[0]));
    }
  }

  lemma DigitNotSpace(c: char)
    requires IsDigit(c)
    ensures c !in SPACES && c != '+' && c != '-'
  {
  }

  lemma NumberStart(left: string, sign: string, digits: string)
    requires AllIn(left, SPACES) && (sign == "" || sign == "+" || sign == "-")
    requires digits != "" && IsDigit(digits[0])
    ensures var s := left + sign + digits;
            && FirstNotOf(s, SPACES) == Some(|left|)
            && (s[|left|] == '+' <==> sign == "+") && (s[|left|] == '-' <==> sign == "-")
            && s[|left| + |sign|..] == digits
  {
    var s := left + sign + digits;
    DigitNotSpace(digits[0]);
    assert s[|left|] == if sign == "" then digits[0] else sign[0];
    assert forall i :: 0 <= i < |left| ==> s[i] == left[i];
  }

  /** stoul reads a number behind white space and a sign, whatever follows it; beyond 2^64 - 1 it throws. */
  lemma StoulReads(left: string, sign: string, n: nat, tail: string)
    requires AllIn(left, SPACES) && (sign == "" || sign == "+" || sign == "-")
    requires tail == "" || !IsDigit(tail[0])
    ensures Stoul(left + sign + Decimal(n) + tail) ==
            if n >= ULONG_COUNT then None
            else if sign == "-" && n > 0 then Some(ULONG_COUNT - n)
            else Some(n)
  {
    hide Decimal, ReadDigits, FirstNotOf, IsDigit, AllIn;
    var digits := Decimal(n) + tail;
    assert left + sign + Decimal(n) + tail == left + sign + digits;
    NumberStart(left, sign, digits);
    DigitsThenTail(Decimal(n), tail, 0);
    DecimalBack(n);
  }

  /** Without a digit behind white space and a sign stoul throws. */
  lemma StoulThrows(left: string, sign: string, rest: string)
    requires AllIn(left, SPACES) && (sign == "" || sign == "+" || sign == "-")
    requires rest == "" ||
               (!IsDigit(rest[0]) && (sign == "" ==> rest[0] !in SPACES && rest[0] != '+' && rest[0] != '-'))
    ensures Stoul(left + sign + rest) == None
  {
    var s := left + sign + rest;
    assert forall i :: 0 <= i < |left| ==> s[i] == left[i];
    if sign + rest == "" {
      assert s == left;
    } else {
      assert s[|left|] == (sign + rest)[0];
      assert FirstNotOf(s, SPACES) == Some(|left|);
      assert s[|left| + |sign|..] == rest;
    }
  }

  // ---------- endpoints that are errors ----------

  /** An endpoint without colon, with a blank host, or with a port that is 0 or too large. */
  lemma EndpointErrors(host: string, text: string, blank: string, n: nat)
    requires ':' !in text && AllIn(blank, BLANKS) && (n == 0 || n > 65535)
    requires host != "" && Trimmed(host, BLANKS) && ':' !in host
    ensures ReadEndpoint(text) == Err(NoColon)
    ensures ReadEndpoint(blank + ":" + text) == Err(EmptyHost)
    ensures ReadEndpoint(Printed(Endpoint(host, n))) == Err(BadPort)
  {
    hide Decimal, Stoul, Trim, Find, Trimmed, AllIn;
    FindNone(text, ':');
    assert ':' !in blank by { NotIn(':', blank, BLANKS); }
    FindAfter(blank, ':', text);
    assert (blank + ":" + text)[..|blank|] == blank;
    TrimBlank(blank, BLANKS);
    BadPortRead(host, n);
  }

  lemma BadPortRead(host: string, n: nat)
    requires n == 0 || n > 65535
    requires host != "" && Trimmed(host, BLANKS) && ':' !in host
    ensures ReadEndpoint(Printed(Endpoint(host, n))) == Err(BadPort)
  {
    hide Decimal, Stoul, Trim, Find;
    var port := Decimal(n);
    var text := Printed(Endpoint(host, n));
    FindAfter(host, ':', port);
    assert text[..|host|] == host && text[|host| + 1..] == port;
    TrimClean(host);
    DigitsPlain(n);
    assert port[0] in port && port[|port| - 1] in port;
    TrimClean(port);
    StoulReads("", "", n, "");
    assert "" + "" + port + "" == port;
  }

  /** The first colon ends the host, and the port ends at its last digit, whatever stands behind it. */
  lemma EndpointWithTail(e: Endpoint, tail: string)
    requires Good(e) && tail != "" && !IsDigit(tail[0]) && tail[|tail| - 1] !in BLANKS
    ensures ReadEndpoint(Printed(e) + tail) == Ok(e)
  {
    hide Decimal, Stoul, Trim, Find;
    var port := Decimal(e.port) + tail;
    var text := Printed(e) + tail;
    assert text == e.host + [':'] + port;
    FindAfter(e.host, ':', port);
    assert text[..|e.host|] == e.host && text[|e.host| + 1..] == port;
    TrimClean(e.host);
    DigitsPlain(e.port);
    assert port[0] == Decimal(e.port)[0] && Decimal(e.port)[0] in Decimal(e.port);
    TrimClean(port);
    StoulReads("", "", e.port, tail);
    assert "" + "" + Decimal(e.port) + tail == port;
  }

  /** One bad item makes the whole list an error. */
  lemma {:induction false} OneBadEndpoint(texts: seq<string>, i: nat)
    requires i < |texts| && ReadEndpoint(texts[i]).Err?
    ensures ReadEndpoints(texts).Err?
    decreases i
  {
    hide ReadEndpoint;
    if i > 0 { OneBadEndpoint(texts[1..], i - 1); }
  }

  /** A list with an item that has no colon is an error. */
  lemma NoColonIsError(value: string, item: string)
    requires item in Items(value) && ':' !in item
    ensures NodeEndpoints(value).Err?
  {
    hide ReadEndpoints, Items, Find;
    var i :| 0 <= i < |Items(value)| && Items(value)[i] == item;
    FindNone(item, ':');
    OneBadEndpoint(Items(value), i);
  }
}
