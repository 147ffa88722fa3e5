/**
 Sequence codecs over element codecs: one runs to the end of the input (ids, strings, feature maps, and ColCodec with a count
 in front), the other reads as many elements as a count says (address ids, transactions of an address).
 */
module Codecs {
  import opened Common
  import opened Bytes

  datatype Codec<!T> = Codec(encode: T -> ByteStr, decode: ByteStr -> Option<(T, nat)>)

  /** The encoding of the element is not empty, and is recognized whatever follows it. */
  ghost predicate Exact<T(!new)>(c: Codec<T>, x: T) {
    |c.encode(x)| > 0 && forall rest: ByteStr :: c.decode(c.encode(x) + rest) == Some((x, |c.encode(x)|))
  }

  ghost predicate AllExact<T(!new)>(c: Codec<T>, xs: seq<T>) {
    forall i :: 0 <= i < |xs| ==> Exact(c, xs[i])
  }

  /** Every decoding moves on, so that loops over the input end. */
  ghost predicate Progresses<T(!new)>(c: Codec<T>) {
    forall bs: ByteStr :: c.decode(bs).Some? ==> c.decode(bs).value.1 > 0
  }

  function Concat<T>(c: Codec<T>, xs: seq<T>): ByteStr {
    if xs == [] then [] else c.encode(xs[0]) + Concat(c, xs[1..])
  }

  // ---- to the end of the input ----

  /** The elements up to the end of the input, and how far the last one claims to reach. */
  function AllOf<T(!new)>(c: Codec<T>, bs: ByteStr): Option<(seq<T>, nat)>
    requires Progresses(c)
    decreases |bs|
  {
    if bs == [] then Some(([], 0)) else
    match c.decode(bs)
    case None => None
    case Some((x, n)) =>
      match AllOf(c, Drop(bs, n))
      case None => None
      case Some((xs, m)) => Some(([x] + xs, n + m))
  }

  ghost function Behind<T>(xs: seq<T>, n: nat, rest: Option<(seq<T>, nat)>): Option<(seq<T>, nat)> {
    if rest == None then None else Some((xs + rest.value.0, n + rest.value.1))
  }

  lemma FirstOfAll<T(!new)>(c: Codec<T>, x: T, rest: ByteStr)
    requires Progresses(c) && Exact(c, x)
    ensures AllOf(c, c.encode(x) + rest) == Behind([x], |c.encode(x)|, AllOf(c, rest))
  {
    assert Drop(c.encode(x) + rest, |c.encode(x)|) == rest;
  }

  lemma BehindBehind<T>(xs: seq<T>, n: nat, ys: seq<T>, m: nat, rest: Option<(seq<T>, nat)>)
    ensures Behind(xs, n, Behind(ys, m, rest)) == Behind(xs + ys, n + m, rest)
  {
    if rest.Some? {
      assert xs + (ys + rest.value.0) == (xs + ys) + rest.value.0;
    }
  }

  lemma BehindNothing<T>(rest: Option<(seq<T>, nat)>)
    ensures Behind([], 0, rest) == rest
  {
    if rest.Some? {
      assert [] + rest.value.0 == rest.value.0;
    }
  }

  lemma {:induction false} AllOfConcat<T(!new)>(c: Codec<T>, xs: seq<T>, rest: ByteStr)
    requires Progresses(c) && AllExact(c, xs)
    ensures AllOf(c, Concat(c, xs) + rest) == Behind(xs, |Concat(c, xs)|, AllOf(c, rest))
    decreases |xs|
  {
    hide AllOf, Behind, Progresses, Exact;
    if xs == [] {
      assert Concat(c, xs) + rest == rest;
      BehindNothing(AllOf(c, rest));
    } else {
      var first, later := c.encode(xs[0]), Concat(c, xs[1..]);
      assert Exact(c, xs[0]);
      assert forall i :: 0 <= i < |xs[1..]| ==> xs[1..][i] == xs[i + 1];
      AllOfConcat(c, xs[1..], rest);
      FirstOfAll(c, xs[0], later + rest);
      BehindBehind([xs[0]], |first|, xs[1..], |later|, AllOf(c, rest));
      assert [xs[0]] + xs[1..] == xs;
      assert Concat(c, xs) + rest == first + (later + rest);
    }
  }

  lemma AllRoundTrip<T(!new)>(c: Codec<T>, xs: seq<T>)
    requires Progresses(c) && AllExact(c, xs)
    ensures AllOf(c, Concat(c, xs)) == Some((xs, |Concat(c, xs)|))
  {
    AllOfConcat(c, xs, []);
    assert Concat(c, xs) + [] == Concat(c, xs);
    assert xs + [] == xs;
  }

  /** The source's loops over the remaining input. */
  method ReadAll<T(!new)>(c: Codec<T>, data: ByteStr) returns (r: Option<(seq<T>, nat)>)
    requires Progresses(c)
    ensures r == AllOf(c, data)
  {
    hide Progresses;
    var xs: seq<T>, i: nat := [], 0;
    StartReading(c, data);
    while i < |data|
      invariant AllOf(c, data) == Behind(xs, i, AllOf(c, Drop(data, i)))
      decreases |data| - i
    {
      ReadStep(c, data, i, xs);
      var d := c.decode(Drop(data, i));
      if d == None {
        return None;
      }
      xs, i := xs + [d.value.0], i + d.value.1;
    }
    assert xs + [] == xs;
    r := Some((xs, i));
  }

  lemma StartReading<T(!new)>(c: Codec<T>, data: ByteStr)
    requires Progresses(c)
    ensures AllOf(c, data) == Behind([], 0, AllOf(c, Drop(data, 0)))
  {
    assert Drop(data, 0) == data;
    if AllOf(c, data).Some? {
      assert [] + AllOf(c, data).value.0 == AllOf(c, data).value.0;
    }
  }

  lemma ReadStep<T(!new)>(c: Codec<T>, data: ByteStr, i: nat, xs: seq<T>)
    requires Progresses(c) && i < |data|
    ensures var d := c.decode(Drop(data, i));
            && (d == None ==> Behind(xs, i, AllOf(c, Drop(data, i))) == None)
            && (d.Some? ==> d.value.1 > 0)
            && (d.Some? ==>
                  Behind(xs, i, AllOf(c, Drop(data, i))) == Behind(xs + [d.value.0], i + d.value.1, AllOf(c, Drop(data, i + d.value.1))))
  {
    var d := c.decode(Drop(data, i));
    if d.Some? {
      assert Drop(Drop(data, i), d.value.1) == Drop(data, i + d.value.1);
      var rest := AllOf(c, Drop(data, i + d.value.1));
      if rest.Some? {
        assert xs + ([d.value.0] + rest.value.0) == (xs + [d.value.0]) + rest.value.0;
      }
    }
  }

  // ---- ColCodec ----

  function ColEncoded<T>(c: Codec<T>, xs: seq<T>): ByteStr {
    Signed(|xs|, 4) + Concat(c, xs)
  }

  method ColEncode<T>(c: Codec<T>, xs: seq<T>) returns (result: ByteStr)
    ensures result == ColEncoded(c, xs)
  {
    var bytes, i := [], 0;
    while i < |xs|
      invariant i <= |xs| && Concat(c, xs) == bytes + Concat(c, xs[i..])
    {
      assert xs[i..][0] == xs[i] && xs[i..][1..] == xs[i + 1..];
      assert bytes + (c.encode(xs[i]) + Concat(c, xs[i + 1..])) == (bytes + c.encode(xs[i])) + Concat(c, xs[i + 1..]);
      bytes := bytes + c.encode(xs[i]);
      i := i + 1;
    }
    assert bytes + [] == bytes;
    result := Signed(|xs|, 4) + bytes;
  }

  method ColDecode<T(!new)>(c: Codec<T>, bytes: ByteStr) returns (r: Option<(seq<T>, nat)>)
    requires Progresses(c)
    ensures r == ColDecoded(c, bytes)
  {
    if |bytes| < 4 {
      return None;
    }
    var expectedLength := FromSigned(bytes[..4]);
    var all := ReadAll(c, bytes[4..]);
    if all == None || |all.value.0| != expectedLength {
      r := None;
    } else {
      r := Some((all.value.0, 4 + all.value.1));
    }
  }

  function ColDecoded<T(!new)>(c: Codec<T>, bytes: ByteStr): Option<(seq<T>, nat)>
    requires Progresses(c)
  {
    if |bytes| < 4 then None else
    match AllOf(c, bytes[4..])
    case None => None
    case Some((xs, n)) => if |xs| == FromSigned(bytes[..4]) then Some((xs, 4 + n)) else None
  }

  /** A collection reads back with its full length, and only if nothing follows it: the codec does not delimit itself. */
  lemma ColRoundTrip<T(!new)>(c: Codec<T>, xs: seq<T>, rest: ByteStr)
    requires Progresses(c) && AllExact(c, xs) && Fits(|xs|, 4)
    ensures ColDecoded(c, ColEncoded(c, xs) + rest) == if rest == [] then Some((xs, |ColEncoded(c, xs)|)) else None
  {
    var bytes := ColEncoded(c, xs) + rest;
    assert bytes[..4] == Signed(|xs|, 4);
    assert bytes[4..] == Concat(c, xs) + rest;
    SignedRoundTrip(|xs|, 4);
    AllOfConcat(c, xs, rest);
    if rest == [] {
      assert xs + [] == xs;
    } else {
      NotEmpty(c, rest);
    }
  }

  lemma NotEmpty<T(!new)>(c: Codec<T>, bs: ByteStr)
    requires Progresses(c) && bs != []
    ensures AllOf(c, bs).Some? ==> AllOf(c, bs).value.0 != []
  {
  }

  // ---- as many as a count says ----

  function CountOf<T>(c: Codec<T>, bs: ByteStr, count: nat): Option<seq<T>>
    decreases count
  {
    if count == 0 then Some([]) else
    match c.decode(bs)
    case None => None
    case Some((x, n)) =>
      match CountOf(c, Drop(bs, n), count - 1)
      case None => None
      case Some(xs) => Some([x] + xs)
  }

  lemma {:induction false} CountRoundTrip<T(!new)>(c: Codec<T>, xs: seq<T>, rest: ByteStr)
    requires AllExact(c, xs)
    ensures CountOf(c, Concat(c, xs) + rest, |xs|) == Some(xs)
    decreases |xs|
  {
    if xs != [] {
      var first, later := c.encode(xs[0]), Concat(c, xs[1..]);
      assert Exact(c, xs[0]);
      assert Concat(c, xs) + rest == first + (later + rest);
      assert Drop(first + (later + rest), |first|) == later + rest;
      CountRoundTrip(c, xs[1..], rest);
      assert [xs[0]] + xs[1..] == xs;
    }
  }

  // ---- ids ----

  predicate IdLength(n: int) { n == 32 || n == 64 }

  function DecodeId(bs: ByteStr): Option<(ByteStr, nat)> {
    if bs == [] || !IdLength(bs[0] as int) || |bs| < 1 + bs[0] as int then None
    else Some((bs[1..1 + bs[0] as int], 1 + bs[0] as nat))
  }

  const ID_CODEC: Codec<ByteStr> := Codec((id: ByteStr) => Signed(|id|, 1) + id, bs => DecodeId(bs))

  /** writeTxIds; None is the source's match error. */
  function WriteTxIds(ids: seq<ByteStr>): Option<ByteStr> {
    if forall i :: 0 <= i < |ids| ==> IdLength(|ids[i]|) then Some(Concat(ID_CODEC, ids)) else None
  }

  function ReadTxIds(data: ByteStr): Option<seq<ByteStr>> {
    IdsProgress();
    match AllOf(ID_CODEC, data)
    case None => None
    case Some((ids, _)) => Some(ids)
  }

  lemma IdsProgress()
    ensures Progresses(ID_CODEC)
  {
  }

  lemma IdExact(id: ByteStr)
    requires IdLength(|id|)
    ensures Exact(ID_CODEC, id)
  {
    Widths();
    SmallMod(|id|, Pow256(1));
    assert Signed(|id|, 1) == [|id| as byte];
    forall rest: ByteStr ensures DecodeId((Signed(|id|, 1) + id) + rest) == Some((id, 1 + |id|)) {
      var bs := (Signed(|id|, 1) + id) + rest;
      assert bs[0] == |id| as byte && bs[1..1 + |id|] == id;
    }
  }

  /** Whatever can be written reads back. */
  lemma TxIdsRoundTrip(ids: seq<ByteStr>)
    ensures WriteTxIds(ids).Some? <==> forall i :: 0 <= i < |ids| ==> IdLength(|ids[i]|)
    ensures WriteTxIds(ids).Some? ==> ReadTxIds(WriteTxIds(ids).value) == Some(ids)
  {
    if WriteTxIds(ids).Some? {
      forall i | 0 <= i < |ids| ensures Exact(ID_CODEC, ids[i]) {
        IdExact(ids[i]);
      }
      IdsProgress();
      AllRoundTrip(ID_CODEC, ids);
    }
  }

  // ---- strings, by their UTF-8 bytes ----

  function DecodeString(bs: ByteStr): Option<(ByteStr, nat)> {
    if |bs| < 2 then None else
    var len := FromSigned(bs[..2]);
    if len < 0 || 2 + len > |bs| then None else Some((bs[2..2 + len], 2 + len))
  }

  const STRING_CODEC: Codec<ByteStr> := Codec((s: ByteStr) => Signed(|s|, 2) + s, bs => DecodeString(bs))

  function WriteStrings(strings: seq<ByteStr>): ByteStr { Concat(STRING_CODEC, strings) }

  function ReadStrings(data: ByteStr): Option<seq<ByteStr>> {
    StringsProgress();
    match AllOf(STRING_CODEC, data)
    case None => None
    case Some((strings, _)) => Some(strings)
  }

  lemma StringsProgress()
    ensures Progresses(STRING_CODEC)
  {
  }

  lemma StringExact(s: ByteStr)
    requires |s| <= 0x7FFF
    ensures Exact(STRING_CODEC, s)
  {
    Widths();
    SignedRoundTrip(|s|, 2);
    forall rest: ByteStr ensures DecodeString((Signed(|s|, 2) + s) + rest) == Some((s, 2 + |s|)) {
      var bs := (Signed(|s|, 2) + s) + rest;
      assert bs[..2] == Signed(|s|, 2) && bs[2..2 + |s|] == s;
    }
  }

  lemma {:induction false} ReadStringsAreShort(data: ByteStr)
    requires Progresses(STRING_CODEC)
    ensures AllOf(STRING_CODEC, data).Some? ==> forall i :: 0 <= i < |AllOf(STRING_CODEC, data).value.0| ==> |AllOf(STRING_CODEC, data).value.0[i]| <= 0x7FFF
    decreases |data|
  {
    if data != [] && DecodeString(data).Some? {
      Widths();
      ReadStringsAreShort(Drop(data, DecodeString(data).value.1));
    }
  }

  /** Strings read back exactly if none is longer than 32767 bytes. */
  lemma StringsRoundTrip(strings: seq<ByteStr>)
    ensures ReadStrings(WriteStrings(strings)) == Some(strings) <==> forall i :: 0 <= i < |strings| ==> |strings[i]| <= 0x7FFF
  {
    StringsProgress();
    if forall i :: 0 <= i < |strings| ==> |strings[i]| <= 0x7FFF {
      forall i | 0 <= i < |strings| ensures Exact(STRING_CODEC, strings[i]) {
        StringExact(strings[i]);
      }
      AllRoundTrip(STRING_CODEC, strings);
    } else {
      ReadStringsAreShort(WriteStrings(strings));
    }
  }

  // ---- feature maps, as the sequence of their entries ----

  function DecodeFeature(bs: ByteStr): Option<((int, int), nat)> {
    if |bs| < 6 then None else Some(((FromSigned(bs[..2]), FromSigned(bs[2..6])), 6))
  }

  const FEATURE_CODEC: Codec<(int, int)> := Codec((f: (int, int)) => Signed(f.0, 2) + Signed(f.1, 4), bs => DecodeFeature(bs))

  lemma FeatureExact(f: (int, int))
    requires Fits(f.0, 2) && Fits(f.1, 4)
    ensures Exact(FEATURE_CODEC, f)
  {
    SignedRoundTrip(f.0, 2);
    SignedRoundTrip(f.1, 4);
    forall rest: ByteStr ensures DecodeFeature((Signed(f.0, 2) + Signed(f.1, 4)) + rest) == Some((f, 6)) {
      var bs := (Signed(f.0, 2) + Signed(f.1, 4)) + rest;
      assert bs[..2] == Signed(f.0, 2) && bs[2..6] == Signed(f.1, 4);
    }
  }

  /** The entries of a feature map read back, in the order they were written. */
  lemma FeaturesRoundTrip(features: seq<(int, int)>)
    requires forall i :: 0 <= i < |features| ==> Fits(features[i].0, 2) && Fits(features[i].1, 4)
    ensures Progresses(FEATURE_CODEC)
    ensures AllOf(FEATURE_CODEC, Concat(FEATURE_CODEC, features)) == Some((features, 6 * |features|))
  {
    assert Progresses(FEATURE_CODEC);
    forall i | 0 <= i < |features| ensures Exact(FEATURE_CODEC, features[i]) {
      FeatureExact(features[i]);
    }
    AllRoundTrip(FEATURE_CODEC, features);
    FeaturesLength(features);
  }

  lemma {:induction false} FeaturesLength(features: seq<(int, int)>)
    ensures |Concat(FEATURE_CODEC, features)| == 6 * |features|
  {
    if features != [] {
      FeaturesLength(features[1..]);
    }
  }

  // ---- big integers ----

  /** The length of BigInt.toByteArray: the least number of bytes whose two's complement fits. */
  function Width(x: int): (k: nat)
    ensures k >= 1
    decreases if x < 0 then -x else x
  {
    if -128 <= x < 128 then 1 else 1 + Width(x / 256)
  }

  lemma {:induction false} WidthFits(x: int)
    ensures Fits(x, Width(x))
    decreases if x < 0 then -x else x
  {
    if !(-128 <= x < 128) {
      WidthFits(x / 256);
      FitsOneMore(x, Width(x / 256));
    } else {
      Widths();
    }
  }

  lemma FitsOneMore(x: int, k: nat)
    requires k >= 1 && Fits(x / 256, k)
    ensures Fits(x, k + 1)
  {
    var p, half := Pow256(k), 128 * Pow256(k - 1);
    assert p == 2 * half && Pow256(k + 1) == 256 * p;
    hide Pow256;
    var q, r := x / 256, x % 256;
    assert x == 256 * q + r && 0 <= r < 256;
    assert -half <= q <= half - 1;
  }

  function DecodeBigInt(bs: ByteStr): Option<(int, nat)> {
    if bs == [] then None else
    var len := FromSigned(bs[..1]);
    if len < 1 || 1 + len > |bs| then None else Some((FromSigned(bs[1..1 + len]), 1 + len))
  }

  const BIG_INT_CODEC: Codec<int> := Codec((x: int) => Signed(Width(x), 1) + Signed(x, Width(x)), bs => DecodeBigInt(bs))

  lemma LengthByte(k: nat)
    requires k <= 127
    ensures FromSigned(Signed(k, 1)) == k
  {
    Widths();
    SignedRoundTrip(k, 1);
  }

  lemma BigIntBytes(x: int)
    ensures FromSigned(Signed(x, Width(x))) == x
  {
    hide Signed, FromSigned, Width, Fits;
    WidthFits(x);
    SignedRoundTrip(x, Width(x));
  }

  lemma BigIntExact(x: int)
    requires Width(x) <= 127
    ensures Exact(BIG_INT_CODEC, x)
  {
    hide Signed, FromSigned, Width, Fits;
    LengthByte(Width(x));
    BigIntBytes(x);
    var a, b := Signed(Width(x), 1), Signed(x, Width(x));
    forall rest: ByteStr ensures DecodeBigInt((a + b) + rest) == Some((x, 1 + Width(x))) {
      DecodesBigInt(a, b, rest);
    }
  }

  lemma DecodesBigInt(a: ByteStr, b: ByteStr, rest: ByteStr)
    requires |a| == 1 && FromSigned(a) == |b| && |b| >= 1
    ensures DecodeBigInt((a + b) + rest) == Some((FromSigned(b), 1 + |b|))
  {
    hide FromSigned;
    var bs := (a + b) + rest;
    assert bs[..1] == a && bs[1..1 + |b|] == b;
  }

  /** writeBigIntSeq; None is a failed requirement. */
  function WriteBigIntSeq(xs: seq<int>): Option<ByteStr> {
    if |xs| <= 0x7FFF && forall i :: 0 <= i < |xs| ==> Width(xs[i]) <= 127
    then Some(Signed(|xs|, 2) + Concat(BIG_INT_CODEC, xs)) else None
  }

  function ReadBigIntSeq(data: ByteStr): Option<seq<int>> {
    if |data| < 2 then None else
    var length := FromSigned(data[..2]);
    CountOf(BIG_INT_CODEC, data[2..], if length < 0 then 0 else length)
  }

  /** Whatever can be written reads back. */
  lemma BigIntSeqRoundTrip(xs: seq<int>)
    ensures WriteBigIntSeq(xs).Some? ==> ReadBigIntSeq(WriteBigIntSeq(xs).value) == Some(xs)
  {
    if WriteBigIntSeq(xs).Some? {
      var data := WriteBigIntSeq(xs).value;
      Widths();
      SignedRoundTrip(|xs|, 2);
      assert data[..2] == Signed(|xs|, 2) && data[2..] == Concat(BIG_INT_CODEC, xs) + [];
      forall i | 0 <= i < |xs| ensures Exact(BIG_INT_CODEC, xs[i]) {
        BigIntExact(xs[i]);
      }
      CountRoundTrip(BIG_INT_CODEC, xs, []);
    }
  }

  // ---- the transactions of an address at a height ----

  function DecodeTypeNum(bs: ByteStr): Option<((int, int), nat)> {
    if |bs| < 3 then None else Some(((FromSigned(bs[..1]), FromSigned(bs[1..3])), 3))
  }

  const TYPE_NUM_CODEC: Codec<(int, int)> := Codec((p: (int, int)) => Signed(p.0, 1) + Signed(p.1, 2), bs => DecodeTypeNum(bs))

  function WriteHNSeq(height: int, typeNums: seq<(int, int)>): ByteStr {
    Signed(height, 4) + (Signed(|typeNums|, 4) + Concat(TYPE_NUM_CODEC, typeNums))
  }

  function ReadHNSeq(bs: ByteStr): Option<(int, seq<(int, int)>)> {
    if |bs| < 8 then None else
    var length := FromSigned(bs[4..8]);
    match CountOf(TYPE_NUM_CODEC, bs[8..], if length < 0 then 0 else length)
    case None => None
    case Some(typeNums) => Some((FromSigned(bs[..4]), typeNums))
  }

  lemma TypeNumExact(p: (int, int))
    requires Fits(p.0, 1) && Fits(p.1, 2)
    ensures Exact(TYPE_NUM_CODEC, p)
  {
    SignedRoundTrip(p.0, 1);
    SignedRoundTrip(p.1, 2);
    forall rest: ByteStr ensures DecodeTypeNum((Signed(p.0, 1) + Signed(p.1, 2)) + rest) == Some((p, 3)) {
      var bs := (Signed(p.0, 1) + Signed(p.1, 2)) + rest;
      assert bs[..1] == Signed(p.0, 1) && bs[1..3] == Signed(p.1, 2);
    }
  }

  /** A height with its typed transaction numbers reads back. */
  lemma HNSeqRoundTrip(height: int, typeNums: seq<(int, int)>)
    requires Fits(height, 4) && Fits(|typeNums|, 4)
    requires forall i :: 0 <= i < |typeNums| ==> Fits(typeNums[i].0, 1) && Fits(typeNums[i].1, 2)
    ensures ReadHNSeq(WriteHNSeq(height, typeNums)) == Some((height, typeNums))
  {
    var bs := WriteHNSeq(height, typeNums);
    SignedRoundTrip(height, 4);
    SignedRoundTrip(|typeNums|, 4);
    assert bs[..4] == Signed(height, 4) && bs[4..8] == Signed(|typeNums|, 4) && bs[8..] == Concat(TYPE_NUM_CODEC, typeNums) + [];
    forall i | 0 <= i < |typeNums| ensures Exact(TYPE_NUM_CODEC, typeNums[i]) {
      TypeNumExact(typeNums[i]);
    }
    CountRoundTrip(TYPE_NUM_CODEC, typeNums, []);
  }
}
