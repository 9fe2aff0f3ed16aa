/**
 * The Paillier proofs on their way from Phase4, which writes each player's map of proofs, to Phase5,
 * which rebuilds the table of all maps
 * (mpc-sdk/providers/fireblocks/FireblocksKeyGenerator.cpp). Maps are written in any order of their keys.
 */
module PaillierProofs {
  import opened Bytes
  import opened Wrappers
  import opened FireblocksKeyGenerator

  type Row = map<u64, seq<byte>>
  type Table = map<u64, Row>

  /** order lists the keys, each once. */
  ghost predicate Enumerates(order: seq<u64>, keys: set<u64>) {
    && (forall k :: k in keys <==> k in order)
    && (forall i, j :: 0 <= i < j < |order| ==> order[i] != order[j])
  }

  predicate SmallRow(m: Row) {
    |m| < SIZE_LIMIT && forall k :: k in m ==> |m[k]| < SIZE_LIMIT
  }

  // ---------- Phase4: one map ----------

  function Entry(target: u64, proof: seq<byte>): seq<byte> {
    LittleEndian(target, 8) + Field(proof)
  }

  /** order names keys of m only. */
  predicate Within(m: Row, order: seq<u64>) {
    forall k :: k in order ==> k in m
  }

  predicate SmallProofs(m: Row, order: seq<u64>)
    requires Within(m, order)
  {
    forall k :: k in order ==> |m[k]| < SIZE_LIMIT
  }

  function Entries(m: Row, order: seq<u64>): seq<byte>
    requires Within(m, order)
  {
    if order == [] then [] else Entry(order[0], m[order[0]]) + Entries(m, order[1..])
  }

  /** uint32_t map_size = m.size(). */
  function Count32(m: Row): (size: u32)
    ensures |m| < SIZE_LIMIT ==> size == |m|
  {
    |m| % SIZE_LIMIT
  }

  function WrittenRow(m: Row, order: seq<u64>): seq<byte>
    requires Within(m, order)
  {
    LittleEndian(Count32(m), 4) + Entries(m, order)
  }

  method WriteProofs(m: Row, order: seq<u64>) returns (data: seq<byte>)
    requires Within(m, order)
    ensures data == WrittenRow(m, order)
  {
    hide Entries, Entry, Field;
    data := [];
    var mapSize := Count32(m);
    data := data + LittleEndian(mapSize, 4);
    for i := 0 to |order|
      invariant data + Entries(m, order[i..]) == WrittenRow(m, order)
    {
      var target := order[i];
      ghost var before := data;
      data := data + LittleEndian(target, 8);
      var proofSize := Size32(m[target]);
      data := data + LittleEndian(proofSize, 4);
      data := data + m[target];
      EntryAppended(before, target, m[target]);
      EntriesFrom(m, order, i);
      assert data + Entries(m, order[i + 1..]) == before + (Entry(target, m[target]) + Entries(m, order[i + 1..]));
    }
    EntriesFrom(m, order, |order|);
  }

  lemma EntryAppended(before: seq<byte>, target: u64, proof: seq<byte>)
    ensures before + LittleEndian(target, 8) + LittleEndian(Size32(proof), 4) + proof == before + Entry(target, proof)
  {
  }

  lemma EntriesFrom(m: Row, order: seq<u64>, i: nat)
    requires Within(m, order) && i <= |order|
    ensures Entries(m, order[i..]) ==
            if i < |order| then Entry(order[i], m[order[i]]) + Entries(m, order[i + 1..]) else []
  {
    if i < |order| { assert order[i..][1..] == order[i + 1..]; }
  }

  // ---------- Phase5: one map ----------

  datatype RowRead = RowRead(row: Row, next: nat)

  function ReadEntries(data: seq<byte>, offset: nat, count: nat, row: Row): Option<RowRead>
    decreases count
  {
    if count == 0 then Some(RowRead(row, offset))
    else
      var target :- Take(data, offset, 8);
      var proof :- TakeField(data, target.next);
      ReadEntries(data, proof.next, count - 1, row[Word64(target.bytes) := proof.bytes])
  }

  function ReadRow(data: seq<byte>): Option<RowRead> {
    var count :- Take(data, 0, 4);
    ReadEntries(data, count.next, Word32(count.bytes), map[])
  }

  /** A written entry is read back. */
  lemma EntryAt(before: seq<byte>, k: u64, v: seq<byte>, after: seq<byte>)
    requires |v| < SIZE_LIMIT
    ensures var data := before + Entry(k, v) + after;
            var target := Take(data, |before|, 8);
            && target.Some? && Word64(target.value.bytes) == k
            && TakeField(data, target.value.next) == Some(Taken(v, |before + Entry(k, v)|))
  {
    hide TakeField, Field;
    var id := LittleEndian(k, 8);
    Word64RoundTrip(k);
    assert before + Entry(k, v) + after == before + id + (Field(v) + after);
    TakeAt(before, id, Field(v) + after);
    assert before + Entry(k, v) + after == (before + id) + Field(v) + after;
    FieldAt(before + id, v, after);
  }

  function Restricted(m: Row, order: seq<u64>): Row
    requires Within(m, order)
  {
    map k | k in order :: m[k]
  }

  lemma RestrictedStep(m: Row, order: seq<u64>, row: Row)
    requires order != [] && Within(m, order)
    ensures row[order[0] := m[order[0]]] + Restricted(m, order[1..]) == row + Restricted(m, order)
  {
    assert forall k :: k in order <==> k == order[0] || k in order[1..];
  }

  lemma ReadOne(before: seq<byte>, k: u64, v: seq<byte>, after: seq<byte>, count: nat, row: Row)
    requires |v| < SIZE_LIMIT
    ensures var data := before + Entry(k, v) + after;
            ReadEntries(data, |before|, count + 1, row) ==
            ReadEntries(data, |before + Entry(k, v)|, count, row[k := v])
  {
    hide Entry, Take, TakeField;
    EntryAt(before, k, v, after);
  }

  /** Reading as many entries as were written adds them to the row and ends at the last byte. */
  lemma {:induction false} ReadBack(before: seq<byte>, m: Row, order: seq<u64>, row: Row)
    requires Within(m, order) && SmallProofs(m, order)
    ensures var data := before + Entries(m, order);
            ReadEntries(data, |before|, |order|, row) == Some(RowRead(row + Restricted(m, order), |data|))
    decreases |order|
  {
    hide Entry, Take, TakeField, Restricted, ReadEntries;
    var data := before + Entries(m, order);
    if order == [] {
      ReadNone(before, m, row);
    } else {
      var k, rest := order[0], order[1..];
      var before' := before + Entry(k, m[k]);
      assert data == before' + Entries(m, rest);
      ReadOne(before, k, m[k], Entries(m, rest), |rest|, row);
      ReadBack(before', m, rest, row[k := m[k]]);
      RestrictedStep(m, order, row);
    }
  }

  lemma ReadNone(before: seq<byte>, m: Row, row: Row)
    ensures ReadEntries(before, |before|, 0, row) == Some(RowRead(row + Restricted(m, []), |before|))
    ensures before + Entries(m, []) == before
  {
    assert row + Restricted(m, []) == row;
  }

  lemma {:induction false} EnumerationLength(order: seq<u64>, keys: set<u64>)
    requires Enumerates(order, keys)
    ensures |order| == |keys|
    decreases |order|
  {
    if order == [] {
      assert keys == {};
    } else {
      assert order[0] in keys;
      assert forall i :: 0 < i < |order| ==> order[i] != order[0] && order[1..][i - 1] == order[i];
      EnumerationLength(order[1..], keys - {order[0]});
    }
  }

  /** Whatever is read has fewer than 2^32 entries below 4 GiB each. */
  lemma {:induction false} ReadIsSmall(data: seq<byte>, offset: nat, count: nat, row: Row)
    requires ReadEntries(data, offset, count, row).Some?
    requires forall k :: k in row ==> |row[k]| < SIZE_LIMIT
    ensures var r := ReadEntries(data, offset, count, row).value.row;
            && |r| <= |row| + count
            && (forall k :: k in r ==> |r[k]| < SIZE_LIMIT)
            && (r == map[] <==> count == 0 && row == map[])
    decreases count
  {
    hide Take, TakeField, Word64;
    if count > 0 {
      var target := Take(data, offset, 8).value;
      assert |target.bytes| == 8 by { TakenLength(data, offset, 8); }
      TakeFieldSound(data, target.next);
      var proof := TakeField(data, target.next).value;
      var k := Word64(target.bytes);
      var row' := row[k := proof.bytes];
      assert row'.Keys == row.Keys + {k};
      assert |row'.Keys| <= |row.Keys| + 1;
      ReadIsSmall(data, proof.next, count - 1, row');
    }
  }

  lemma TakenLength(data: seq<byte>, offset: nat, n: nat)
    requires Take(data, offset, n).Some?
    ensures |Take(data, offset, n).value.bytes| == n
  {
  }

  lemma RowIsSmall(data: seq<byte>)
    requires ReadRow(data).Some?
    ensures SmallRow(ReadRow(data).value.row)
    ensures ReadRow(data).value.row == map[] <==> Word32(Take(data, 0, 4).value.bytes) == 0
  {
    hide ReadEntries, Word32;
    var count := Take(data, 0, 4).value;
    ReadIsSmall(data, count.next, Word32(count.bytes), map[]);
  }

  lemma CountBack(m: Row, order: seq<u64>)
    requires Within(m, order) && |m| < SIZE_LIMIT
    ensures ReadRow(WrittenRow(m, order)) == ReadEntries(WrittenRow(m, order), 4, |m|, map[])
  {
    hide ReadEntries, Entries, Take, Within, LittleEndian, Word32, Count32;
    var count := LittleEndian(|m|, 4);
    Word32RoundTrip(|m|);
    TakeAt([], count, Entries(m, order));
    assert WrittenRow(m, order) == [] + count + Entries(m, order);
  }

  lemma RestrictedAll(m: Row, order: seq<u64>)
    requires Enumerates(order, m.Keys)
    ensures map[] + Restricted(m, order) == m
  {
  }

  lemma ListedRowBack(count: seq<byte>, m: Row, order: seq<u64>)
    requires |order| == |m| < SIZE_LIMIT && Within(m, order) && SmallProofs(m, order)
    requires |count| == 4 && WrittenRow(m, order) == count + Entries(m, order)
    ensures var data := WrittenRow(m, order); ReadRow(data) == Some(RowRead(map[] + Restricted(m, order), |data|))
  {
    hide *;
    CountBack(m, order);
    ReadBack(count, m, order, map[]);
  }

  lemma SmallRowBack(m: Row, order: seq<u64>)
    requires Enumerates(order, m.Keys) && SmallRow(m)
    ensures var data := WrittenRow(m, order); ReadRow(data) == Some(RowRead(m, |data|))
  {
    hide ReadRow, ReadEntries, Entries, Restricted, LittleEndian, Count32;
    EnumerationLength(order, m.Keys);
    RestrictedAll(m, order);
    ListedRowBack(LittleEndian(|m|, 4), m, order);
  }

  /** The writer's map comes back, with every byte consumed, exactly if count and lengths are below 2^32. */
  lemma RowRoundTrip(m: Row, order: seq<u64>)
    requires Enumerates(order, m.Keys)
    ensures var data := WrittenRow(m, order);
            && (SmallRow(m) ==> ReadRow(data) == Some(RowRead(m, |data|)))
            && (ReadRow(data).Some? && ReadRow(data).value.row == m ==> SmallRow(m))
  {
    hide ReadRow, WrittenRow, SmallRow;
    var data := WrittenRow(m, order);
    if SmallRow(m) {
      SmallRowBack(m, order);
    } else if ReadRow(data).Some? {
      RowIsSmall(data);
    }
  }

  // ---------- which data can be read ----------

  /** Any list of entries, also one that repeats an id, which no writer produces. */
  type EntryList = seq<(u64, seq<byte>)>

  predicate SmallEntries(es: EntryList) {
    |es| < SIZE_LIMIT && forall i :: 0 <= i < |es| ==> |es[i].1| < SIZE_LIMIT
  }

  function Image(es: EntryList): seq<byte> {
    if es == [] then [] else Entry(es[0].0, es[0].1) + Image(es[1..])
  }

  function RowImage(es: EntryList): seq<byte>
    requires |es| < SIZE_LIMIT
  {
    LittleEndian(|es|, 4) + Image(es)
  }

  lemma EntryRead(data: seq<byte>, offset: nat)
    requires Take(data, offset, 8).Some?
    requires TakeField(data, Take(data, offset, 8).value.next).Some?
    ensures var target := Take(data, offset, 8).value;
            var proof := TakeField(data, target.next).value;
            && |target.bytes| == 8 && |proof.bytes| < SIZE_LIMIT && offset <= proof.next <= |data|
            && data[offset..proof.next] == Entry(Word64(target.bytes), proof.bytes)
  {
    hide TakeField, Field;
    var target := Take(data, offset, 8).value;
    TakeFieldSound(data, target.next);
    Pow256Words();
    ImageRoundTrip(target.bytes);
    var proof := TakeField(data, target.next).value;
    assert data[offset..proof.next] == target.bytes + data[target.next..proof.next];
  }

  /** What is read as entries is the image of a list of entries below 4 GiB. */
  lemma {:induction false} EntriesSound(data: seq<byte>, offset: nat, count: nat, row: Row) returns (es: EntryList)
    requires offset <= |data| && ReadEntries(data, offset, count, row).Some?
    ensures |es| == count && forall i :: 0 <= i < |es| ==> |es[i].1| < SIZE_LIMIT
    ensures var next := ReadEntries(data, offset, count, row).value.next;
            offset <= next <= |data| && data[offset..next] == Image(es)
    decreases count
  {
    hide Word64, Take, TakeField, Entry;
    if count == 0 {
      es := [];
    } else {
      var target := Take(data, offset, 8).value;
      EntryRead(data, offset);
      var proof := TakeField(data, target.next).value;
      var id := Word64(target.bytes);
      var rest := EntriesSound(data, proof.next, count - 1, row[id := proof.bytes]);
      es := [(id, proof.bytes)] + rest;
      var next := ReadEntries(data, offset, count, row).value.next;
      assert es[1..] == rest;
      assert data[offset..next] == data[offset..proof.next] + data[proof.next..next];
    }
  }

  lemma {:induction false} EntriesBack(before: seq<byte>, es: EntryList, after: seq<byte>, row: Row)
    requires forall i :: 0 <= i < |es| ==> |es[i].1| < SIZE_LIMIT
    ensures var r := ReadEntries(before + Image(es) + after, |before|, |es|, row);
            r.Some? && r.value.next == |before + Image(es)|
    decreases |es|
  {
    hide Entry, Take, TakeField, ReadEntries;
    if es == [] {
      NoEntries(before + Image(es) + after, |before|, row);
    } else {
      var (id, proof) := es[0];
      var before' := before + Entry(id, proof);
      ReadOne(before, id, proof, Image(es[1..]) + after, |es| - 1, row);
      assert before + Image(es) + after == before + Entry(id, proof) + (Image(es[1..]) + after);
      assert before + Image(es) + after == before' + Image(es[1..]) + after;
      EntriesBack(before', es[1..], after, row[id := proof]);
    }
  }

  lemma NoEntries(data: seq<byte>, offset: nat, row: Row)
    ensures ReadEntries(data, offset, 0, row) == Some(RowRead(row, offset))
  {
  }

  lemma RowSound(data: seq<byte>) returns (es: EntryList)
    requires ReadRow(data).Some?
    ensures SmallEntries(es) && RowImage(es) <= data && ReadRow(data).value.next == |RowImage(es)|
  {
    hide ReadEntries, Image;
    var count := Take(data, 0, 4).value;
    Pow256Words();
    ImageRoundTrip(count.bytes);
    es := EntriesSound(data, 4, Word32(count.bytes), map[]);
    var next := ReadRow(data).value.next;
    assert data[..next] == data[..4] + data[4..next];
  }

  lemma RowReadable(es: EntryList, after: seq<byte>)
    requires SmallEntries(es)
    ensures var r := ReadRow(RowImage(es) + after); r.Some? && r.value.next == |RowImage(es)|
  {
    hide ReadEntries, Image, Take, Word32, LittleEndian;
    var count := LittleEndian(|es|, 4);
    Word32RoundTrip(|es|);
    assert RowImage(es) + after == [] + count + (Image(es) + after);
    TakeAt([], count, Image(es) + after);
    assert RowImage(es) + after == count + Image(es) + after;
    EntriesBack(count, es, after, map[]);
  }

  /** The offset stays within the data exactly for data that begin with the image of some list of entries. */
  lemma ReadInBounds(data: seq<byte>)
    ensures ReadRow(data).Some? <==> exists es :: SmallEntries(es) && RowImage(es) <= data
    ensures forall es :: SmallEntries(es) && RowImage(es) <= data ==>
              ReadRow(data).Some? && ReadRow(data).value.next == |RowImage(es)|
  {
    hide ReadRow, RowImage;
    if ReadRow(data).Some? {
      var es := RowSound(data);
    }
    forall es | SmallEntries(es) && RowImage(es) <= data
      ensures ReadRow(data).Some? && ReadRow(data).value.next == |RowImage(es)|
    {
      Split(RowImage(es), data);
      RowReadable(es, data[|RowImage(es)|..]);
    }
  }

  /** Where everything stands: the count first, and in each entry id, size and bytes. */
  lemma RowLayout(m: Row, order: seq<u64>)
    requires Within(m, order)
    ensures var s := WrittenRow(m, order);
            && s[..4] == LittleEndian(|m| % 0x1_0000_0000, 4)
            && (order != [] ==>
                  var k := order[0]; var n := |m[k]|;
                  && s[4..12] == LittleEndian(k, 8) && s[12..16] == LittleEndian(n % 0x1_0000_0000, 4)
                  && s[16..16 + n] == m[k]
                  && s[16 + n..] == Entries(m, order[1..]))
  {
    hide LittleEndian;
    var s := WrittenRow(m, order);
    if order != [] {
      var k := order[0];
      assert Entries(m, order) == Entry(k, m[k]) + Entries(m, order[1..]);
      hide Entries;
      assert s == LittleEndian(Count32(m), 4) + LittleEndian(k, 8) + LittleEndian(Size32(m[k]), 4) + m[k]
                  + Entries(m, order[1..]);
    }
  }

  /** The row that entries make: an id that occurs again replaces what it had. */
  function RowFrom(es: EntryList, row: Row): Row {
    if es == [] then row else RowFrom(es[1..], row[es[0].0 := es[0].1])
  }

  lemma {:induction false} EntriesMean(before: seq<byte>, es: EntryList, after: seq<byte>, row: Row)
    requires forall i :: 0 <= i < |es| ==> |es[i].1| < SIZE_LIMIT
    ensures ReadEntries(before + Image(es) + after, |before|, |es|, row) ==
            Some(RowRead(RowFrom(es, row), |before + Image(es)|))
    decreases |es|
  {
    hide Entry, Take, TakeField, ReadEntries;
    if es == [] {
      NoEntries(before + Image(es) + after, |before|, row);
    } else {
      var (id, proof) := es[0];
      var before' := before + Entry(id, proof);
      ReadOne(before, id, proof, Image(es[1..]) + after, |es| - 1, row);
      assert before + Image(es) + after == before + Entry(id, proof) + (Image(es[1..]) + after);
      assert before + Image(es) + after == before' + Image(es[1..]) + after;
      EntriesMean(before', es[1..], after, row[id := proof]);
    }
  }

  /** Each id of the row has the bytes of its last entry. */
  lemma {:induction false} LastEntryWins(es: EntryList, row: Row, i: nat)
    requires i < |es| && forall j :: i < j < |es| ==> es[j].0 != es[i].0
    ensures es[i].0 in RowFrom(es, row) && RowFrom(es, row)[es[i].0] == es[i].1
    decreases |es|
  {
    var row' := row[es[0].0 := es[0].1];
    if i > 0 {
      LastEntryWins(es[1..], row', i - 1);
    } else {
      OtherEntriesKeep(es[1..], row', es[0].0);
    }
  }

  lemma {:induction false} OtherEntriesKeep(es: EntryList, row: Row, k: u64)
    requires forall j :: 0 <= j < |es| ==> es[j].0 != k
    ensures (k in RowFrom(es, row) <==> k in row) && (k in row ==> RowFrom(es, row)[k] == row[k])
    decreases |es|
  {
    if es != [] { OtherEntriesKeep(es[1..], row[es[0].0 := es[0].1], k); }
  }

  /**
   * What is read from the image of any list of entries: every id has the bytes of its last entry, and
   * there is no other id.
   */
  lemma RowMeaning(es: EntryList, after: seq<byte>, i: nat, k: u64)
    requires SmallEntries(es) && i < |es| && forall j :: i < j < |es| ==> es[j].0 != es[i].0
    ensures var r := ReadRow(RowImage(es) + after);
            && r.Some? && r.value.next == |RowImage(es)|
            && es[i].0 in r.value.row && r.value.row[es[i].0] == es[i].1
            && ((forall j :: 0 <= j < |es| ==> es[j].0 != k) ==> k !in r.value.row)
  {
    hide ReadEntries, Image, Take, Word32, LittleEndian, RowFrom;
    var count := LittleEndian(|es|, 4);
    Word32RoundTrip(|es|);
    assert RowImage(es) + after == [] + count + (Image(es) + after);
    TakeAt([], count, Image(es) + after);
    assert RowImage(es) + after == count + Image(es) + after;
    EntriesMean(count, es, after, map[]);
    LastEntryWins(es, map[], i);
    if forall j :: 0 <= j < |es| ==> es[j].0 != k { OtherEntriesKeep(es, map[], k); }
  }

  // ---------- Phase5: the table of all senders ----------

  /** A row exists only once it has an entry. */
  function WithRow(table: Table, from: u64, row: Row): Table {
    if row == map[] then table else table[from := row]
  }

  function ReadTable(proofs: map<u64, seq<byte>>, order: seq<u64>, table: Table): Option<Table>
    requires forall k :: k in order ==> k in proofs
    decreases |order|
  {
    if order == [] then Some(table)
    else
      var r :- ReadRow(proofs[order[0]]);
      ReadTable(proofs, order[1..], WithRow(table, order[0], r.row))
  }

  function RowOf(table: Table, from: u64): Row {
    if from in table then table[from] else map[]
  }

  /** fb_proofs[from][target] = proof, which makes the row when it is first used. */
  function Store(table: Table, from: u64, target: u64, proof: seq<byte>): (t: Table)
    ensures RowOf(t, from) == RowOf(table, from)[target := proof]
    ensures forall t0, row :: table == WithRow(t0, from, row) && from !in t0 ==>
              t == WithRow(t0, from, row[target := proof])
  {
    var row := RowOf(table, from)[target := proof];
    assert target in row;
    table[from := row]
  }

  /** The loop over one sender's entries. */
  method ReadSender(data: seq<byte>, from: u64, table: Table) returns (result: Option<Table>)
    requires from !in table
    ensures ReadRow(data).None? ==> result == None
    ensures ReadRow(data).Some? ==> result == Some(WithRow(table, from, ReadRow(data).value.row))
  {
    hide Take, TakeField, Word64, Store, WithRow;
    var fbProofs := table;
    var offset: nat := 0;
    var size := Take(data, offset, 4);
    if size.None? { return None; }
    assert |size.value.bytes| == 4 by { TakenLength(data, offset, 4); }
    offset := size.value.next;
    var mapSize := Word32(size.value.bytes);
    ghost var row: Row := map[];
    assert fbProofs == WithRow(table, from, row) by { EmptyRow(table, from); }
    for i := 0 to mapSize
      invariant ReadEntries(data, offset, (mapSize - i) as nat, row) == ReadRow(data)
      invariant fbProofs == WithRow(table, from, row)
    {
      var target := Take(data, offset, 8);
      if target.None? { return None; }
      assert |target.value.bytes| == 8 by { TakenLength(data, offset, 8); }
      offset := target.value.next;
      var proof := TakeField(data, offset);
      if proof.None? { return None; }
      offset := proof.value.next;
      var id := Word64(target.value.bytes);
      fbProofs := Store(fbProofs, from, id, proof.value.bytes);
      row := row[id := proof.value.bytes];
    }
    result := Some(fbProofs);
  }

  lemma EmptyRow(table: Table, from: u64)
    ensures WithRow(table, from, map[]) == table
  {
  }

  method ReadProofs(proofs: map<u64, seq<byte>>, order: seq<u64>) returns (result: Option<Table>)
    requires Enumerates(order, proofs.Keys)
    ensures result == ReadTable(proofs, order, map[])
  {
    var fbProofs: Table := map[];
    for i := 0 to |order|
      invariant ReadTable(proofs, order[i..], fbProofs) == ReadTable(proofs, order, map[])
      invariant forall k :: k in fbProofs ==> k in order[..i]
    {
      assert order[i..][1..] == order[i + 1..];
      assert order[i] in proofs.Keys && order[i] !in order[..i];
      var r := ReadSender(proofs[order[i]], order[i], fbProofs);
      if r.None? { return None; }
      fbProofs := r.value;
    }
    result := Some(fbProofs);
  }

  /** What Phase5 makes of the data: each sender's row as read from its own data, and none for an empty one. */
  ghost predicate RebuiltFrom(proofs: map<u64, seq<byte>>, order: seq<u64>, before: Table, after: Table)
    requires forall k :: k in order ==> k in proofs
  {
    && (forall k :: k !in order ==> (k in after <==> k in before) && RowOf(after, k) == RowOf(before, k))
    && (forall k :: k in order ==>
          && ReadRow(proofs[k]).Some?
          && RowOf(after, k) == ReadRow(proofs[k]).value.row
          && (k in after <==> ReadRow(proofs[k]).value.row != map[]))
  }

  lemma WithRowFacts(table: Table, from: u64, row: Row)
    requires from !in table
    ensures var t := WithRow(table, from, row);
            && RowOf(t, from) == row && (from in t <==> row != map[])
            && forall k :: k != from ==> (k in t <==> k in table) && RowOf(t, k) == RowOf(table, k)
  {
  }

  lemma {:induction false} ReadTableRows(proofs: map<u64, seq<byte>>, order: seq<u64>, table: Table)
    requires forall k :: k in order ==> k in proofs && k !in table
    requires forall i, j :: 0 <= i < j < |order| ==> order[i] != order[j]
    ensures ReadTable(proofs, order, table).Some? <==> forall k :: k in order ==> ReadRow(proofs[k]).Some?
    ensures ReadTable(proofs, order, table).Some? ==>
              RebuiltFrom(proofs, order, table, ReadTable(proofs, order, table).value)
    decreases |order|
  {
    hide ReadRow, WithRow, RowOf;
    if order != [] && ReadRow(proofs[order[0]]).Some? {
      var row := ReadRow(proofs[order[0]]).value.row;
      WithRowFacts(table, order[0], row);
      assert forall k :: k in order <==> k == order[0] || k in order[1..];
      assert order[0] !in order[1..];
      ReadTableRows(proofs, order[1..], WithRow(table, order[0], row));
    }
  }

  /** Phase4 of every sender, with whatever order each map was walked in. */
  ghost predicate AllWritten(table: Table, orders: map<u64, seq<u64>>, proofs: map<u64, seq<byte>>) {
    && proofs.Keys == table.Keys && orders.Keys == table.Keys
    && forall s :: s in table ==>
         Enumerates(orders[s], table[s].Keys) && proofs[s] == WrittenRow(table[s], orders[s])
  }

  /** Each sender's row as Phase5 reads it. */
  ghost predicate RowsBack(table: Table, proofs: map<u64, seq<byte>>) {
    && proofs.Keys == table.Keys
    && forall s :: s in table ==>
         && (SmallRow(table[s]) ==> ReadRow(proofs[s]).Some? && ReadRow(proofs[s]).value.row == table[s])
         && (ReadRow(proofs[s]).Some? && ReadRow(proofs[s]).value.row == table[s] ==> SmallRow(table[s]))
  }

  lemma WrittenRowsBack(table: Table, orders: map<u64, seq<u64>>, proofs: map<u64, seq<byte>>)
    requires AllWritten(table, orders, proofs)
    ensures RowsBack(table, proofs)
  {
    hide ReadRow, WrittenRow, SmallRow, Enumerates;
    forall s | s in table
      ensures SmallRow(table[s]) ==> ReadRow(proofs[s]).Some? && ReadRow(proofs[s]).value.row == table[s]
      ensures ReadRow(proofs[s]).Some? && ReadRow(proofs[s]).value.row == table[s] ==> SmallRow(table[s])
    {
      RowRoundTrip(table[s], orders[s]);
    }
  }

  lemma RebuiltIsTable(table: Table, proofs: map<u64, seq<byte>>, order: seq<u64>, rebuilt: Table)
    requires RowsBack(table, proofs) && forall k :: k in order <==> k in table
    requires RebuiltFrom(proofs, order, map[], rebuilt)
    ensures rebuilt == table <==> forall s :: s in table ==> SmallRow(table[s]) && table[s] != map[]
  {
    hide ReadRow, SmallRow;
    if forall s :: s in table ==> SmallRow(table[s]) && table[s] != map[] {
      assert forall k :: k in rebuilt ==> k in order && rebuilt[k] == RowOf(rebuilt, k);
      assert rebuilt == table;
    } else if rebuilt == table {
      forall s | s in table
        ensures SmallRow(table[s]) && table[s] != map[]
      {
        assert RowOf(rebuilt, s) == table[s];
      }
    }
  }

  /**
   * The whole sender-by-target table is rebuilt exactly if every sender's map is below the limits and no
   * sender's map is empty: a sender without entries gets no row.
   */
  lemma TableRoundTrip(table: Table, orders: map<u64, seq<u64>>, proofs: map<u64, seq<byte>>, order: seq<u64>)
    requires AllWritten(table, orders, proofs) && Enumerates(order, proofs.Keys)
    ensures ReadTable(proofs, order, map[]) == Some(table) <==>
            forall s :: s in table ==> SmallRow(table[s]) && table[s] != map[]
  {
    hide ReadRow, WrittenRow, SmallRow, ReadTable, RebuiltFrom;
    WrittenRowsBack(table, orders, proofs);
    assert forall k :: k in order <==> k in table;
    ReadTableRows(proofs, order, map[]);
    if ReadTable(proofs, order, map[]).Some? {
      RebuiltIsTable(table, proofs, order, ReadTable(proofs, order, map[]).value);
    }
  }

  /** A sender that wrote an empty map is missing from the table. */
  lemma EmptyRowLost(s: u64)
    ensures ReadTable(map[s := WrittenRow(map[], [])], [s], map[]) == Some(map[])
  {
    var data := WrittenRow(map[], []);
    SmallRowBack(map[], []);
    assert ReadRow(data).value.row == map[];
    assert ReadTable(map[s := data], [], map[]) == Some(map[]);
  }
}
