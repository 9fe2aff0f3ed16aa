/** The searches of std::string that the text parsers are made of. */
module Strings {
  import opened Wrappers

  /** s.find(c). */
  function Find(s: string, c: char, pos: nat := 0): (r: Option<nat>)
    requires pos <= |s|
    ensures r.Some? ==> pos <= r.value < |s| && s[r.value] == c && forall i :: pos <= i < r.value ==> s[i] != c
    ensures r.None? ==> forall i :: pos <= i < |s| ==> s[i] != c
    decreases |s| - pos
  {
    if pos == |s| then None else if s[pos] == c then Some(pos) else Find(s, c, pos + 1)
  }

  /** s.find_first_not_of(ws). */
  function FirstNotOf(s: string, ws: string, pos: nat := 0): (r: Option<nat>)
    requires pos <= |s|
    ensures r.Some? ==> pos <= r.value < |s| && s[r.value] !in ws && forall i :: pos <= i < r.value ==> s[i] in ws
    ensures r.None? ==> forall i :: pos <= i < |s| ==> s[i] in ws
    decreases |s| - pos
  {
    if pos == |s| then None else if s[pos] !in ws then Some(pos) else FirstNotOf(s, ws, pos + 1)
  }

  /** s.find_last_not_of(ws), looking at the characters before end. */
  function LastNotOf(s: string, ws: string, end: nat): (r: Option<nat>)
    requires end <= |s|
    ensures r.Some? ==> r.value < end && s[r.value] !in ws && forall i :: r.value < i < end ==> s[i] in ws
    ensures r.None? ==> forall i :: 0 <= i < end ==> s[i] in ws
  {
    if end == 0 then None else if s[end - 1] !in ws then Some(end - 1) else LastNotOf(s, ws, end - 1)
  }

  /** Characters of ws cut off at both ends; nothing is left of a string of them. */
  function Trim(s: string, ws: string): (r: string)
    ensures Trimmed(r, ws) && forall c :: c in r ==> c in s
  {
    var start := FirstNotOf(s, ws);
    if start.None? then ""
    else
      var end := LastNotOf(s, ws, |s|);
      assert end.Some? && start.value <= end.value;
      s[start.value..end.value + 1]
  }

  predicate Trimmed(s: string, ws: string) {
    s != "" ==> s[0] !in ws && s[|s| - 1] !in ws
  }

  predicate AllIn(s: string, ws: string) {
    forall i :: 0 <= i < |s| ==> s[i] in ws
  }

  /** Padding is exactly what is cut off. */
  lemma TrimPadded(left: string, x: string, right: string, ws: string)
    requires AllIn(left, ws) && AllIn(right, ws) && Trimmed(x, ws)
    ensures Trim(left + x + right, ws) == x
  {
    var s := left + x + right;
    if x == "" {
      assert forall i :: 0 <= i < |s| ==> s[i] in ws;
    } else {
      var start, end := FirstNotOf(s, ws), LastNotOf(s, ws, |s|);
      assert s[|left|] == x[0] && s[|left| + |x| - 1] == x[|x| - 1];
      assert start == Some(|left|);
      assert end == Some(|left| + |x| - 1) by {
        assert forall i :: |left| + |x| <= i < |s| ==> s[i] == right[i - |left| - |x|];
      }
      assert s[|left|..|left| + |x|] == x;
    }
  }

  lemma FindAfter(before: string, c: char, after: string)
    requires c !in before
    ensures Find(before + [c] + after, c) == Some(|before|)
  {
    var s := before + [c] + after;
    assert s[|before|] == c;
    assert forall i :: 0 <= i < |before| ==> s[i] == before[i];
  }

  lemma FindNone(s: string, c: char)
    requires c !in s
    ensures Find(s, c) == None
  {
  }
}
