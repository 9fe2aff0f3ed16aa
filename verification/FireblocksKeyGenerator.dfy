/**
 * The hand-written codecs of key generation (mpc-sdk/providers/fireblocks/FireblocksKeyGenerator.cpp):
 * serializers that append, deserializers that copy from a moving offset without looking at the end of
 * the data. A copy that would leave the data has no defined result; it is None here.
 */
module FireblocksKeyGenerator {
  import opened Bytes
  import opened Wrappers

  const SIZE_LIMIT := 0x1_0000_0000

  /** A member of fixed size that is copied as memory. */
  type Fixed32 = s: seq<byte> | |s| == 32 witness seq(32, _ => 0)
  type Fixed65 = s: seq<byte> | |s| == 65 witness seq(65, _ => 0)

  datatype Decommitment = Decommitment(
    ack: Fixed32,
    seed: Fixed32,
    share: Fixed65,
    paillierPublicKey: seq<byte>,
    ringPedersenPublicKey: seq<byte>)
  {
    predicate Small() {
      |paillierPublicKey| < SIZE_LIMIT && |ringPedersenPublicKey| < SIZE_LIMIT
    }
  }

  datatype ZKProofs = ZKProofs(schnorrS: Fixed32, paillierBlumZkp: seq<byte>, ringPedersenParamZkp: seq<byte>) {
    predicate Small() {
      |paillierBlumZkp| < SIZE_LIMIT && |ringPedersenParamZkp| < SIZE_LIMIT
    }
  }

  // ---------- one field ----------

  /** uint32_t size = v.size(). */
  function Size32(data: seq<byte>): u32 {
    |data| % SIZE_LIMIT
  }

  /** A size word and the bytes. */
  function Field(data: seq<byte>): seq<byte> {
    LittleEndian(Size32(data), 4) + data
  }

  datatype Taken = Taken(bytes: seq<byte>, next: nat)

  /** n bytes copied from an offset on. */
  function Take(data: seq<byte>, offset: nat, n: nat): (t: Option<Taken>)
    ensures t.Some? ==> |t.value.bytes| == n && t.value.next == offset + n <= |data|
  {
    if offset + n <= |data| then Some(Taken(data[offset..offset + n], offset + n)) else None
  }

  function TakeField(data: seq<byte>, offset: nat): Option<Taken> {
    var size :- Take(data, offset, 4);
    Take(data, size.next, Word32(size.bytes))
  }

  lemma TakeAt(before: seq<byte>, x: seq<byte>, after: seq<byte>)
    ensures Take(before + x + after, |before|, |x|) == Some(Taken(x, |before + x|))
  {
    assert (before + x + after)[|before|..|before| + |x|] == x;
  }

  lemma Split(s: seq<byte>, data: seq<byte>)
    requires s <= data
    ensures data == s + data[|s|..]
  {
  }

  /** A field written by the serializers is read back, whatever stands around it. */
  lemma FieldAt(before: seq<byte>, x: seq<byte>, after: seq<byte>)
    requires |x| < SIZE_LIMIT
    ensures TakeField(before + Field(x) + after, |before|) == Some(Taken(x, |before + Field(x)|))
  {
    var size := LittleEndian(|x|, 4);
    Word32RoundTrip(|x|);
    assert before + Field(x) + after == before + size + (x + after);
    TakeAt(before, size, x + after);
    assert before + Field(x) + after == (before + size) + x + after;
    TakeAt(before + size, x, after);
  }

  /** What is read as a field is the image of a field below 4 GiB. */
  lemma TakeFieldSound(data: seq<byte>, offset: nat)
    requires TakeField(data, offset).Some?
    ensures var t := TakeField(data, offset).value;
            && |t.bytes| < SIZE_LIMIT && offset <= t.next <= |data|
            && data[offset..t.next] == Field(t.bytes)
  {
    var size := Take(data, offset, 4).value;
    Pow256Words();
    ImageRoundTrip(size.bytes);
    var t := TakeField(data, offset).value;
    assert LittleEndian(Word32(size.bytes), 4) == size.bytes;
    assert data[offset..t.next] == data[offset..offset + 4] + data[offset + 4..t.next];
  }

  // ---------- decommitments ----------

  function SerializedDecommitment(d: Decommitment): seq<byte> {
    d.ack + d.seed + d.share + Field(d.paillierPublicKey) + Field(d.ringPedersenPublicKey)
  }

  function ParsedDecommitment(data: seq<byte>): Option<Decommitment> {
    var ack :- Take(data, 0, 32);
    var seed :- Take(data, ack.next, 32);
    var share :- Take(data, seed.next, 65);
    var paillier :- TakeField(data, share.next);
    var ring :- TakeField(data, paillier.next);
    Some(Decommitment(ack.bytes, seed.bytes, share.bytes, paillier.bytes, ring.bytes))
  }

  method SerializeDecommitment(decommit: Decommitment) returns (result: seq<byte>)
    ensures result == SerializedDecommitment(decommit)
  {
    result := [];
    result := result + decommit.ack;
    result := result + decommit.seed;
    result := result + decommit.share;
    var paillierSize := Size32(decommit.paillierPublicKey);
    result := result + LittleEndian(paillierSize, 4);
    result := result + decommit.paillierPublicKey;
    var ringSize := Size32(decommit.ringPedersenPublicKey);
    result := result + LittleEndian(ringSize, 4);
    result := result + decommit.ringPedersenPublicKey;
  }

  method DeserializeDecommitment(data: seq<byte>) returns (result: Option<Decommitment>)
    ensures result == ParsedDecommitment(data)
  {
    var offset := 0;
    if offset + 32 > |data| { return None; }
    var ack := data[offset..offset + 32];
    offset := offset + 32;
    if offset + 32 > |data| { return None; }
    var seed := data[offset..offset + 32];
    offset := offset + 32;
    if offset + 65 > |data| { return None; }
    var share := data[offset..offset + 65];
    offset := offset + 65;
    if offset + 4 > |data| { return None; }
    var paillierSize := Word32(data[offset..offset + 4]);
    offset := offset + 4;
    if offset + paillierSize > |data| { return None; }
    var paillier := data[offset..offset + paillierSize];
    offset := offset + paillierSize;
    if offset + 4 > |data| { return None; }
    var ringSize := Word32(data[offset..offset + 4]);
    offset := offset + 4;
    if offset + ringSize > |data| { return None; }
    var ring := data[offset..offset + ringSize];
    result := Some(Decommitment(ack, seed, share, paillier, ring));
  }

  lemma Regroup(a: seq<byte>, b: seq<byte>, c: seq<byte>, d: seq<byte>, e: seq<byte>, f: seq<byte>)
    ensures var s := a + b + c + d + e + f;
            && s == [] + a + (b + c + d + e + f)
            && s == a + b + (c + d + e + f)
            && s == (a + b) + c + (d + e + f)
            && s == (a + b + c) + d + (e + f)
            && s == (a + b + c + d) + e + f
  {
    assert b + c + d + e + f == b + (c + d + e + f);
    assert c + d + e + f == c + (d + e + f);
    assert d + e + f == d + (e + f);
  }

  lemma DecommitmentReadBack(d: Decommitment, after: seq<byte>)
    requires d.Small()
    ensures ParsedDecommitment(SerializedDecommitment(d) + after) == Some(d)
  {
    hide Take, TakeField, Field;
    var p, r := Field(d.paillierPublicKey), Field(d.ringPedersenPublicKey);
    Regroup(d.ack, d.seed, d.share, p, r, after);
    TakeAt([], d.ack, d.seed + d.share + p + r + after);
    TakeAt(d.ack, d.seed, d.share + p + r + after);
    TakeAt(d.ack + d.seed, d.share, p + r + after);
    FieldAt(d.ack + d.seed + d.share, d.paillierPublicKey, r + after);
    FieldAt(d.ack + d.seed + d.share + p, d.ringPedersenPublicKey, after);
  }

  /** Reading back, with anything behind, gives the value exactly when both fields are below 4 GiB. */
  lemma DecommitmentRoundTrip(d: Decommitment, after: seq<byte>)
    ensures ParsedDecommitment(SerializedDecommitment(d) + after) == Some(d) <==> d.Small()
  {
    hide ParsedDecommitment, SerializedDecommitment;
    var data := SerializedDecommitment(d) + after;
    if d.Small() {
      DecommitmentReadBack(d, after);
    } else if ParsedDecommitment(data).Some? {
      DecommitmentSound(data);
    }
  }

  /** Where everything stands in a serialized decommitment. */
  lemma DecommitmentLayout(d: Decommitment)
    ensures var s := SerializedDecommitment(d);
            var n := |d.paillierPublicKey|;
            && |s| == 137 + n + |d.ringPedersenPublicKey|
            && s[0..32] == d.ack && s[32..64] == d.seed && s[64..129] == d.share
            && s[129..133] == LittleEndian(n % 0x1_0000_0000, 4)
            && s[133..133 + n] == d.paillierPublicKey
            && s[133 + n..137 + n] == LittleEndian(|d.ringPedersenPublicKey| % 0x1_0000_0000, 4)
            && s[137 + n..] == d.ringPedersenPublicKey
  {
    var a, b := LittleEndian(Size32(d.paillierPublicKey), 4), LittleEndian(Size32(d.ringPedersenPublicKey), 4);
    hide LittleEndian;
    var p := d.ack + d.seed + d.share;
    Slices(p, a, d.paillierPublicKey, b, d.ringPedersenPublicKey);
    assert SerializedDecommitment(d) == p + a + d.paillierPublicKey + b + d.ringPedersenPublicKey;
    assert SerializedDecommitment(d)[..129] == p;
    assert p[0..32] == d.ack && p[32..64] == d.seed && p[64..129] == d.share;
  }

  /** The offset stays inside the data exactly for data that begin with a serialized value, which is the result. */
  lemma DecommitmentSound(data: seq<byte>)
    requires ParsedDecommitment(data).Some?
    ensures var d := ParsedDecommitment(data).value;
            d.Small() && SerializedDecommitment(d) <= data
  {
    var d := ParsedDecommitment(data).value;
    var paillier := TakeField(data, 129).value;
    var ring := TakeField(data, paillier.next).value;
    TakeFieldSound(data, 129);
    TakeFieldSound(data, paillier.next);
    assert data[..ring.next] == data[..32] + data[32..64] + data[64..129] + data[129..paillier.next]
                                + data[paillier.next..ring.next];
    assert data[..ring.next] == SerializedDecommitment(d);
  }

  lemma DecommitmentInBounds(data: seq<byte>)
    ensures ParsedDecommitment(data).Some? <==>
            exists d: Decommitment :: d.Small() && SerializedDecommitment(d) <= data
  {
    hide ParsedDecommitment, SerializedDecommitment, Decommitment.Small;
    if ParsedDecommitment(data).Some? {
      DecommitmentSound(data);
    }
    if d: Decommitment :| d.Small() && SerializedDecommitment(d) <= data {
      Split(SerializedDecommitment(d), data);
      DecommitmentRoundTrip(d, data[|SerializedDecommitment(d)|..]);
    }
  }

  /** No two values with fields below 4 GiB have the same image, nor one that begins the other. */
  lemma DecommitmentInjective(d: Decommitment, e: Decommitment)
    requires d.Small() && e.Small() && SerializedDecommitment(d) <= SerializedDecommitment(e)
    ensures d == e
  {
    hide ParsedDecommitment, SerializedDecommitment, Decommitment.Small;
    var after := SerializedDecommitment(e)[|SerializedDecommitment(d)|..];
    Split(SerializedDecommitment(d), SerializedDecommitment(e));
    assert SerializedDecommitment(e) == SerializedDecommitment(e) + [];
    DecommitmentRoundTrip(d, after);
    DecommitmentRoundTrip(e, []);
  }

  // ---------- zero-knowledge proofs ----------

  function SerializedZKProofs(z: ZKProofs): seq<byte> {
    z.schnorrS + Field(z.paillierBlumZkp) + Field(z.ringPedersenParamZkp)
  }

  function ParsedZKProofs(data: seq<byte>): Option<ZKProofs> {
    var schnorr :- Take(data, 0, 32);
    var blum :- TakeField(data, schnorr.next);
    var ring :- TakeField(data, blum.next);
    Some(ZKProofs(schnorr.bytes, blum.bytes, ring.bytes))
  }

  method SerializeZKProofs(proofs: ZKProofs) returns (result: seq<byte>)
    ensures result == SerializedZKProofs(proofs)
  {
    result := [];
    result := result + proofs.schnorrS;
    var paillierSize := Size32(proofs.paillierBlumZkp);
    result := result + LittleEndian(paillierSize, 4);
    result := result + proofs.paillierBlumZkp;
    var ringSize := Size32(proofs.ringPedersenParamZkp);
    result := result + LittleEndian(ringSize, 4);
    result := result + proofs.ringPedersenParamZkp;
  }

  method DeserializeZKProofs(data: seq<byte>) returns (result: Option<ZKProofs>)
    ensures result == ParsedZKProofs(data)
  {
    var offset := 0;
    if offset + 32 > |data| { return None; }
    var schnorr := data[offset..offset + 32];
    offset := offset + 32;
    if offset + 4 > |data| { return None; }
    var paillierSize := Word32(data[offset..offset + 4]);
    offset := offset + 4;
    if offset + paillierSize > |data| { return None; }
    var blum := data[offset..offset + paillierSize];
    offset := offset + paillierSize;
    if offset + 4 > |data| { return None; }
    var ringSize := Word32(data[offset..offset + 4]);
    offset := offset + 4;
    if offset + ringSize > |data| { return None; }
    result := Some(ZKProofs(schnorr, blum, data[offset..offset + ringSize]));
  }

  lemma ZKProofsRoundTrip(z: ZKProofs, after: seq<byte>)
    ensures ParsedZKProofs(SerializedZKProofs(z) + after) == Some(z) <==> z.Small()
  {
    var data := SerializedZKProofs(z) + after;
    if z.Small() {
      var b, r := Field(z.paillierBlumZkp), Field(z.ringPedersenParamZkp);
      assert data == [] + z.schnorrS + (b + r + after);
      TakeAt([], z.schnorrS, b + r + after);
      assert data == z.schnorrS + b + (r + after);
      FieldAt(z.schnorrS, z.paillierBlumZkp, r + after);
      FieldAt(z.schnorrS + b, z.ringPedersenParamZkp, after);
    } else if ParsedZKProofs(data).Some? {
      ZKProofsSound(data);
    }
  }

  /** Where everything stands in serialized proofs. */
  lemma ZKProofsLayout(z: ZKProofs)
    ensures var s := SerializedZKProofs(z);
            var n := |z.paillierBlumZkp|;
            && |s| == 40 + n + |z.ringPedersenParamZkp|
            && s[0..32] == z.schnorrS
            && s[32..36] == LittleEndian(n % 0x1_0000_0000, 4)
            && s[36..36 + n] == z.paillierBlumZkp
            && s[36 + n..40 + n] == LittleEndian(|z.ringPedersenParamZkp| % 0x1_0000_0000, 4)
            && s[40 + n..] == z.ringPedersenParamZkp
  {
    var a, b := LittleEndian(Size32(z.paillierBlumZkp), 4), LittleEndian(Size32(z.ringPedersenParamZkp), 4);
    hide LittleEndian;
    Slices(z.schnorrS, a, z.paillierBlumZkp, b, z.ringPedersenParamZkp);
    assert SerializedZKProofs(z) == z.schnorrS + a + z.paillierBlumZkp + b + z.ringPedersenParamZkp;
  }

  lemma Slices(p: seq<byte>, a: seq<byte>, x: seq<byte>, b: seq<byte>, y: seq<byte>)
    ensures var s := p + a + x + b + y;
            var i, j, k := |p|, |p| + |a|, |p| + |a| + |x|;
            && s[..i] == p && s[i..j] == a && s[j..k] == x && s[k..k + |b|] == b && s[k + |b|..] == y
  {
  }

  lemma ZKProofsSound(data: seq<byte>)
    requires ParsedZKProofs(data).Some?
    ensures var z := ParsedZKProofs(data).value; z.Small() && SerializedZKProofs(z) <= data
  {
    var z := ParsedZKProofs(data).value;
    var blum := TakeField(data, 32).value;
    var ring := TakeField(data, blum.next).value;
    TakeFieldSound(data, 32);
    TakeFieldSound(data, blum.next);
    assert data[..ring.next] == data[..32] + data[32..blum.next] + data[blum.next..ring.next];
    assert data[..ring.next] == SerializedZKProofs(z);
  }

  lemma ZKProofsInBounds(data: seq<byte>)
    ensures ParsedZKProofs(data).Some? <==> exists z: ZKProofs :: z.Small() && SerializedZKProofs(z) <= data
  {
    hide ParsedZKProofs, SerializedZKProofs, ZKProofs.Small;
    if ParsedZKProofs(data).Some? {
      ZKProofsSound(data);
    }
    if z: ZKProofs :| z.Small() && SerializedZKProofs(z) <= data {
      Split(SerializedZKProofs(z), data);
      ZKProofsRoundTrip(z, data[|SerializedZKProofs(z)|..]);
    }
  }

  lemma ZKProofsInjective(y: ZKProofs, z: ZKProofs)
    requires y.Small() && z.Small() && SerializedZKProofs(y) <= SerializedZKProofs(z)
    ensures y == z
  {
    hide ParsedZKProofs, SerializedZKProofs, ZKProofs.Small;
    var after := SerializedZKProofs(z)[|SerializedZKProofs(y)|..];
    Split(SerializedZKProofs(y), SerializedZKProofs(z));
    assert SerializedZKProofs(z) == SerializedZKProofs(z) + [];
    ZKProofsRoundTrip(y, after);
    ZKProofsRoundTrip(z, []);
  }
}
