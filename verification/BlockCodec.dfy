/**
 How blocks are stored and sent: the header record, the wire form, and splicing the wire form back together from the stored
 header bytes and the stored transactions.
 */
module BlockCodec {
  import opened Common
  import opened Bytes

  datatype WireHeader = WireHeader(
    version: int,
    timestamp: int,
    reference: ByteStr,
    baseTarget: int,
    generationSignature: ByteStr,
    transactionCount: int,
    featureVotes: seq<int>, // in the iteration order of the set
    generator: ByteStr,
    signature: ByteStr)

  const SIGNATURE_LENGTH: nat := 64
  const KEY_LENGTH: nat := 32
  const MAX_FEATURES_IN_BLOCK: nat := 64

  /** What Block.build checks, the widths of the fields, and a block version that can be written. */
  predicate Built(h: WireHeader) {
    && 1 <= h.version <= 3
    && Fits(h.timestamp, 8) && Fits(h.baseTarget, 8)
    && |h.reference| == SIGNATURE_LENGTH && |h.generationSignature| == 32
    && |h.generator| == KEY_LENGTH && |h.signature| == SIGNATURE_LENGTH
    && (h.version > 2 || h.featureVotes == [])
    && |h.featureVotes| <= MAX_FEATURES_IN_BLOCK
    && (forall i :: 0 <= i < |h.featureVotes| ==> Fits(h.featureVotes[i], 2))
  }

  predicate OldVersion(version: int) { version == 1 || version == 2 }

  function CountBytes(version: int, count: int): ByteStr {
    if OldVersion(version) then Signed(count, 1) else Signed(count, 4)
  }

  function Shorts(xs: seq<int>): (r: ByteStr)
    ensures |r| == 2 * |xs|
  {
    if xs == [] then [] else Signed(xs[0], 2) + Shorts(xs[1..])
  }

  function ReadShorts(bs: ByteStr, n: nat): seq<int>
    requires |bs| >= 2 * n
  {
    if n == 0 then [] else [FromSigned(bs[..2])] + ReadShorts(bs[2..], n - 1)
  }

  lemma {:induction false} ShortsRoundTrip(xs: seq<int>)
    requires forall i :: 0 <= i < |xs| ==> Fits(xs[i], 2)
    ensures ReadShorts(Shorts(xs), |xs|) == xs
  {
    if xs != [] {
      SignedRoundTrip(xs[0], 2);
      ShortsRoundTrip(xs[1..]);
      assert Shorts(xs)[..2] == Signed(xs[0], 2) && Shorts(xs)[2..] == Shorts(xs[1..]);
    }
  }

  // ---- the wire form ----

  function Consensus(h: WireHeader): ByteStr { Signed(h.baseTarget, 8) + h.generationSignature }

  function SerTxs(txs: seq<ByteStr>): ByteStr {
    if txs == [] then [] else Signed(|txs[0]|, 4) + (txs[0] + SerTxs(txs[1..]))
  }

  function TransactionField(version: int, txs: seq<ByteStr>): ByteStr {
    CountBytes(version, |txs|) + SerTxs(txs)
  }

  function FeaturesField(h: WireHeader): ByteStr {
    if h.version < 3 then [] else Signed(|h.featureVotes|, 4) + Shorts(h.featureVotes)
  }

  /** Everything behind the transactions. */
  function Trailer(h: WireHeader): ByteStr {
    FeaturesField(h) + (h.generator + h.signature)
  }

  /** Block.bytes */
  function WireBytes(h: WireHeader, txs: seq<ByteStr>): ByteStr {
    var c, t := Consensus(h), TransactionField(h.version, txs);
    Signed(h.version, 1) + (Signed(h.timestamp, 8) + (h.reference + (Signed(|c|, 4) + (c + (Signed(|t|, 4) + (t + Trailer(h)))))))
  }

  // ---- the stored header ----

  /** writeBlockHeaderAndSize without the leading size, as blockHeaderBytesAt reads it. */
  function HeaderBytes(h: WireHeader): ByteStr {
    Signed(h.version, 1) + (Signed(h.timestamp, 8) + (h.reference + (Consensus(h) + (CountBytes(h.version, h.transactionCount) +
      (Signed(|h.featureVotes|, 4) + (Shorts(h.featureVotes) + (h.generator + h.signature)))))))
  }

  function StoredHeader(h: WireHeader, size: int): ByteStr {
    Signed(size, 4) + HeaderBytes(h)
  }

  /** readBlockHeaderAndSize; None is an end of input or a negative count. */
  function ReadHeader(bs: ByteStr): Option<(WireHeader, int)> {
    if |bs| < 117 then None else
    var size, version, timestamp := FromSigned(bs[..4]), FromSigned(bs[4..5]), FromSigned(bs[5..13]);
    var reference, baseTarget, genSig := bs[13..77], FromSigned(bs[77..85]), bs[85..117];
    var p := if OldVersion(version) then 118 else 121;
    if |bs| < p + 4 then None else
    var count, votes := FromSigned(bs[117..p]), FromSigned(bs[p..p + 4]);
    if votes < 0 || |bs| < p + 4 + 2 * votes + KEY_LENGTH + SIGNATURE_LENGTH then None else
    var q := p + 4 + 2 * votes;
    Some((WireHeader(version, timestamp, reference, baseTarget, genSig, count, ReadShorts(bs[p + 4..q], votes), bs[q..q + KEY_LENGTH],
                     bs[q + KEY_LENGTH..q + KEY_LENGTH + SIGNATURE_LENGTH]), size))
  }

  lemma CountRoundTrip(version: int, count: nat)
    requires 1 <= version <= 3 && Fits(count, 4)
    ensures FromSigned(CountBytes(version, count)) == count <==> version == 3 || count <= 127
  {
    Widths();
    SignedRoundTrip(count, 1);
    SignedRoundTrip(count, 4);
  }

  lemma HeaderParts(h: WireHeader, size: int)
    requires Built(h)
    ensures var bs, p := StoredHeader(h, size), if OldVersion(h.version) then 118 else 121;
            var q := p + 4 + 2 * |h.featureVotes|;
            && |bs| == q + 96
            && bs[..4] == Signed(size, 4) && bs[4..5] == Signed(h.version, 1) && bs[5..13] == Signed(h.timestamp, 8)
            && bs[13..77] == h.reference && bs[77..85] == Signed(h.baseTarget, 8) && bs[85..117] == h.generationSignature
            && bs[117..p] == CountBytes(h.version, h.transactionCount) && bs[p..p + 4] == Signed(|h.featureVotes|, 4)
            && bs[p + 4..q] == Shorts(h.featureVotes) && bs[q..q + 32] == h.generator && bs[q + 32..q + 96] == h.signature
  {
    var count, votes := CountBytes(h.version, h.transactionCount), Shorts(h.featureVotes);
    assert |count| == if OldVersion(h.version) then 1 else 4;
    hide Signed, Shorts, CountBytes, Fits;
    assert StoredHeader(h, size) == Signed(size, 4) + (Signed(h.version, 1) + (Signed(h.timestamp, 8) + (h.reference + (Signed(h.baseTarget, 8) +
      (h.generationSignature + (count + (Signed(|h.featureVotes|, 4) + (votes + (h.generator + h.signature))))))))) by {
      ConsensusConcat(h, count + (Signed(|h.featureVotes|, 4) + (votes + (h.generator + h.signature))));
    }
    var back := count + (Signed(|h.featureVotes|, 4) + (votes + (h.generator + h.signature)));
    hide StoredHeader;
    FrontLayout(StoredHeader(h, size), Signed(size, 4), Signed(h.version, 1), Signed(h.timestamp, 8), h.reference, Signed(h.baseTarget, 8),
                h.generationSignature, back);
    BackLayout(StoredHeader(h, size), 117, count, Signed(|h.featureVotes|, 4), votes, h.generator, h.signature);
  }

  lemma ConsensusConcat(h: WireHeader, rest: ByteStr)
    ensures Consensus(h) + rest == Signed(h.baseTarget, 8) + (h.generationSignature + rest)
  {
  }

  lemma FrontLayout(bs: ByteStr, size: ByteStr, version: ByteStr, timestamp: ByteStr, reference: ByteStr, baseTarget: ByteStr, genSig: ByteStr,
                    back: ByteStr)
    requires |size| == 4 && |version| == 1 && |timestamp| == 8 && |reference| == 64 && |baseTarget| == 8 && |genSig| == 32
    requires bs == size + (version + (timestamp + (reference + (baseTarget + (genSig + back)))))
    ensures |bs| == 117 + |back| && bs[117..] == back
    ensures bs[..4] == size && bs[4..5] == version && bs[5..13] == timestamp && bs[13..77] == reference && bs[77..85] == baseTarget && bs[85..117] == genSig
  {
    var t4 := genSig + back;
    var t3 := baseTarget + t4;
    var t2 := reference + t3;
    var t1 := timestamp + t2;
    var t0 := version + t1;
    assert bs[0..] == bs;
    hide Slice;
    Next(bs, 0, size, t0);
    Next(bs, 4, version, t1);
    Next(bs, 5, timestamp, t2);
    Next(bs, 13, reference, t3);
    Next(bs, 77, baseTarget, t4);
    Next(bs, 85, genSig, back);
  }

  lemma BackLayout(bs: ByteStr, pos: nat, count: ByteStr, votesCount: ByteStr, votes: ByteStr, generator: ByteStr, signature: ByteStr)
    requires |votesCount| == 4 && |generator| == 32 && |signature| == 64
    requires pos <= |bs| && bs[pos..] == count + (votesCount + (votes + (generator + signature)))
    ensures var p := pos + |count|;
            var q := p + 4 + |votes|;
            && |bs| == q + 96
            && bs[pos..p] == count && bs[p..p + 4] == votesCount && bs[p + 4..q] == votes
            && bs[q..q + 32] == generator && bs[q + 32..q + 96] == signature
  {
    var t8 := generator + signature;
    var t7 := votes + t8;
    var t6 := votesCount + t7;
    var p := pos + |count|;
    var q := p + 4 + |votes|;
    hide Slice;
    Next(bs, pos, count, t6);
    Next(bs, p, votesCount, t7);
    Next(bs, p + 4, votes, t8);
    Next(bs, q, generator, signature);
  }

  /** The header record reads back as it was written, except that old versions only keep counts up to 127. */
  lemma HeaderRoundTrip(h: WireHeader, size: int)
    requires Built(h) && Fits(size, 4) && h.transactionCount >= 0 && Fits(h.transactionCount, 4)
    ensures ReadHeader(StoredHeader(h, size)) == Some((h, size)) <==> h.version == 3 || h.transactionCount <= 127
  {
    Widths();
    HeaderParts(h, size);
    CountRoundTrip(h.version, h.transactionCount);
    SignedRoundTrip(size, 4);
    SignedRoundTrip(h.version, 1);
    SignedRoundTrip(h.timestamp, 8);
    SignedRoundTrip(h.baseTarget, 8);
    SignedRoundTrip(|h.featureVotes|, 4);
    ShortsRoundTrip(h.featureVotes);
    hide StoredHeader, Signed, FromSigned, CountBytes, Shorts, ReadShorts, Pow256;
  }

  // ---- splicing ----

  /** Stored transaction bytes of one block by number; None stands for the source's exception on a missing one. */
  function ReadTransactionBytes(stored: map<int, ByteStr>, count: nat): Option<ByteStr> {
    if count == 0 then Some([]) else
    match ReadTransactionBytes(stored, count - 1)
    case None => None
    case Some(before) =>
      var num := FromSigned(Signed(count - 1, 2));
      if num !in stored then None else Some(before + (Signed(|stored[num]|, 4) + stored[num]))
  }

  /** How many transactions a loop up to a count runs over. */
  function Count(countBytes: ByteStr): nat {
    if FromSigned(countBytes) < 0 then 0 else FromSigned(countBytes)
  }

  /** loadBlockBytes; None is an exception. */
  function LoadBlockBytes(headerBytes: ByteStr, stored: map<int, ByteStr>): Option<ByteStr> {
    var consensusDataOffset := 1 + 8 + SIGNATURE_LENGTH;
    var txCountOffset := consensusDataOffset + 8 + 32;
    if headerBytes == [] then None else
    var version := FromSigned(headerBytes[..1]);
    var bytesBeforeCData := Slice(headerBytes, 0, consensusDataOffset);
    var consensusDataBytes := Slice(headerBytes, consensusDataOffset, consensusDataOffset + 40);
    var txCountBytes := Slice(headerBytes, txCountOffset, txCountOffset + if OldVersion(version) then 1 else 4);
    if |txCountBytes| != (if OldVersion(version) then 1 else 4) then None else
    var bytesAfterTxs := if version > 2 then Drop(headerBytes, txCountOffset + |txCountBytes|)
                         else TakeRight(headerBytes, SIGNATURE_LENGTH + KEY_LENGTH);
    match ReadTransactionBytes(stored, Count(txCountBytes))
    case None => None
    case Some(txs) =>
      var txBytes := txCountBytes + txs;
      Some(bytesBeforeCData + (Signed(|consensusDataBytes|, 4) + (consensusDataBytes + (Signed(|txBytes|, 4) + (txBytes + bytesAfterTxs)))))
  }

  function StoredTransactions(txs: seq<ByteStr>): map<int, ByteStr> {
    map n | 0 <= n < |txs| :: n := txs[n]
  }

  lemma {:induction false} SerTxsSnoc(txs: seq<ByteStr>, tx: ByteStr)
    ensures SerTxs(txs + [tx]) == SerTxs(txs) + (Signed(|tx|, 4) + tx)
  {
    if txs != [] {
      assert (txs + [tx])[1..] == txs[1..] + [tx];
      SerTxsSnoc(txs[1..], tx);
    }
  }

  lemma {:induction false} ReadsFirst(txs: seq<ByteStr>, count: nat)
    requires count <= |txs| < 0x8000
    ensures ReadTransactionBytes(StoredTransactions(txs), count) == Some(SerTxs(txs[..count]))
  {
    if count > 0 {
      ReadsFirst(txs, count - 1);
      Widths();
      SignedRoundTrip(count - 1, 2);
      assert txs[..count] == txs[..count - 1] + [txs[count - 1]];
      SerTxsSnoc(txs[..count - 1], txs[count - 1]);
    }
  }

  lemma {:induction false} SerTxsGrows(txs: seq<ByteStr>, count: nat)
    requires count <= |txs|
    ensures |SerTxs(txs[..count])| + 4 * (|txs| - count) <= |SerTxs(txs)|
    decreases |txs| - count
  {
    if count == |txs| {
      assert txs[..count] == txs;
    } else {
      SerTxsGrows(txs, count + 1);
      assert txs[..count + 1] == txs[..count] + [txs[count]];
      SerTxsSnoc(txs[..count], txs[count]);
    }
  }

  /** What the splice finds in the header bytes. */
  lemma HeaderStarts(h: WireHeader)
    requires Built(h)
    ensures HeaderBytes(h) == (Signed(h.version, 1) + (Signed(h.timestamp, 8) + h.reference))
                              + (Consensus(h) + (CountBytes(h.version, h.transactionCount) + VotesAndSigner(h)))
    ensures FromSigned(Signed(h.version, 1)) == h.version
  {
    Widths();
    SignedRoundTrip(h.version, 1);
  }

  lemma SplicedParts(h: WireHeader)
    requires Built(h)
    ensures var hb, n := HeaderBytes(h), |CountBytes(h.version, h.transactionCount)|;
            && hb != [] && FromSigned(hb[..1]) == h.version
            && Slice(hb, 0, 73) == Signed(h.version, 1) + (Signed(h.timestamp, 8) + h.reference)
            && Slice(hb, 73, 113) == Consensus(h)
            && Slice(hb, 113, 113 + n) == CountBytes(h.version, h.transactionCount)
            && (if h.version > 2 then Drop(hb, 113 + n) else TakeRight(hb, 96)) == Trailer(h)
  {
    var hb, count := HeaderBytes(h), CountBytes(h.version, h.transactionCount);
    var front := Signed(h.version, 1) + (Signed(h.timestamp, 8) + h.reference);
    var t6 := VotesAndSigner(h);
    var t5 := count + t6;
    hide HeaderBytes, Slice, Signed, FromSigned, VotesAndSigner, CountBytes;
    HeaderStarts(h);
    assert hb[0..] == hb;
    assert hb[..1] == Signed(h.version, 1);
    assert |front| == 73 && |Consensus(h)| == 40;
    Next(hb, 0, front, Consensus(h) + t5);
    Next(hb, 73, Consensus(h), t5);
    Next(hb, 113, count, t6);
    TrailerOf(h, hb, 113 + |count|);
  }

  function VotesAndSigner(h: WireHeader): ByteStr {
    Signed(|h.featureVotes|, 4) + (Shorts(h.featureVotes) + (h.generator + h.signature))
  }

  lemma TrailerOf(h: WireHeader, hb: ByteStr, p: nat)
    requires Built(h) && p <= |hb| && hb[p..] == VotesAndSigner(h)
    ensures (if h.version > 2 then Drop(hb, p) else TakeRight(hb, 96)) == Trailer(h)
  {
    var count, votes, signer := Signed(|h.featureVotes|, 4), Shorts(h.featureVotes), h.generator + h.signature;
    hide Signed, Shorts, Fits;
    if h.version <= 2 {
      Next(hb, p, count, votes + signer);
      assert votes + signer == signer && [] + signer == signer;
      assert hb[|hb| - 96..] == signer;
    } else {
      assert count + (votes + signer) == (count + votes) + signer;
    }
  }

  /** The spliced bytes with whatever count the header kept. */
  ghost function Spliced(h: WireHeader, t: ByteStr): ByteStr {
    var c := Consensus(h);
    (Signed(h.version, 1) + (Signed(h.timestamp, 8) + h.reference)) + (Signed(|c|, 4) + (c + (Signed(|t|, 4) + (t + Trailer(h)))))
  }

  lemma SpliceIs(h: WireHeader, txs: seq<ByteStr>)
    requires Built(h) && h.transactionCount == |txs| < 0x8000
    ensures var read := Count(CountBytes(h.version, |txs|));
            && read <= |txs| && (read == |txs| <==> h.version == 3 || |txs| <= 127)
            && LoadBlockBytes(HeaderBytes(h), StoredTransactions(txs)) == Some(Spliced(h, CountBytes(h.version, |txs|) + SerTxs(txs[..read])))
  {
    hide HeaderBytes, Trailer, Consensus, ReadTransactionBytes, SerTxs, Signed, StoredTransactions, FromSigned, CountBytes, LoadBlockBytes,
      Slice, Drop, TakeRight, Count, Pow256;
    SplicedParts(h);
    CountKept(h.version, |txs|);
    var countBytes := CountBytes(h.version, |txs|);
    ReadsFirst(txs, Count(countBytes));
    var front := Signed(h.version, 1) + (Signed(h.timestamp, 8) + h.reference);
    Unfolded(HeaderBytes(h), StoredTransactions(txs), h.version, front, Consensus(h), countBytes, Trailer(h), SerTxs(txs[..Count(countBytes)]));
  }

  lemma Unfolded(hb: ByteStr, stored: map<int, ByteStr>, version: int, front: ByteStr, c: ByteStr, countBytes: ByteStr, after: ByteStr, txs: ByteStr)
    requires hb != [] && FromSigned(hb[..1]) == version
    requires Slice(hb, 0, 73) == front && Slice(hb, 73, 113) == c
    requires |countBytes| == if OldVersion(version) then 1 else 4
    requires Slice(hb, 113, 113 + |countBytes|) == countBytes
    requires (if version > 2 then Drop(hb, 113 + |countBytes|) else TakeRight(hb, 96)) == after
    requires ReadTransactionBytes(stored, Count(countBytes)) == Some(txs)
    ensures var t := countBytes + txs;
            LoadBlockBytes(hb, stored) == Some(front + (Signed(|c|, 4) + (c + (Signed(|t|, 4) + (t + after)))))
  {
    hide Slice, Drop, TakeRight, ReadTransactionBytes, Signed, FromSigned, Count;
  }

  lemma CountKept(version: int, count: nat)
    requires 1 <= version <= 3 && count < 0x8000
    ensures Count(CountBytes(version, count)) <= count
    ensures Count(CountBytes(version, count)) == count <==> version == 3 || count <= 127
    ensures FromSigned(CountBytes(version, count)) == count <==> version == 3 || count <= 127
    ensures |CountBytes(version, count)| == if OldVersion(version) then 1 else 4
  {
    Widths();
    CountRoundTrip(version, count);
    if OldVersion(version) && count > 127 {
      assert FromSigned(CountBytes(version, count)) <= 127;
    }
  }

  lemma WireIs(h: WireHeader, txs: seq<ByteStr>)
    ensures WireBytes(h, txs) == Spliced(h, TransactionField(h.version, txs))
  {
    hide Consensus, TransactionField, Trailer, Signed;
  }

  lemma SplicedLength(h: WireHeader, s: ByteStr, t: ByteStr)
    ensures |Spliced(h, t)| - |Spliced(h, s)| == |t| - |s|
  {
    hide Signed, Consensus, Trailer;
  }

  /** Splicing the stored parts gives back the block's wire bytes, except for old versions with more than 127 transactions. */
  lemma SpliceExact(h: WireHeader, txs: seq<ByteStr>)
    requires Built(h) && h.transactionCount == |txs| < 0x8000
    ensures LoadBlockBytes(HeaderBytes(h), StoredTransactions(txs)) == Some(WireBytes(h, txs)) <==> h.version == 3 || |txs| <= 127
  {
    SpliceIs(h, txs);
    WireIs(h, txs);
    var read := Count(CountBytes(h.version, |txs|));
    if read == |txs| {
      assert txs[..read] == txs;
    } else {
      SerTxsGrows(txs, read);
      SplicedLength(h, CountBytes(h.version, |txs|) + SerTxs(txs[..read]), TransactionField(h.version, txs));
    }
    hide LoadBlockBytes, HeaderBytes, Spliced, SerTxs, CountBytes, StoredTransactions, WireBytes;
  }

  // ---- parsing ----

  /** The part of a header in front of the feature votes, the transaction field, and where it ends. */
  datatype Front = Front(version: int, timestamp: int, reference: ByteStr, baseTarget: int, generationSignature: ByteStr, tBytes: ByteStr,
                         transactionCount: int, position: int)

  function ParseFront(bytes: ByteStr): Option<Front> {
    if |bytes| < 77 then None else
    var version, timestamp := FromSigned(bytes[..1]), FromSigned(Slice(bytes, 1, 9));
    var reference, cLength := Slice(bytes, 9, 73), FromSigned(Slice(bytes, 73, 77));
    var cBytes := Slice(bytes, 77, 77 + cLength);
    if |cBytes| < 8 then None else
    var baseTarget, genSig := FromSigned(cBytes[..8]), TakeRight(cBytes, 32);
    var p := 77 + cLength;
    if |Slice(bytes, p, p + 4)| < 4 then None else
    var tLength := FromSigned(Slice(bytes, p, p + 4));
    var tBytes := Slice(bytes, p + 4, p + 4 + tLength);
    if !(1 <= version <= 3) || |tBytes| < (if OldVersion(version) then 1 else 4) then None else
    var count := FromSigned(if OldVersion(version) then tBytes[..1] else tBytes[..4]);
    Some(Front(version, timestamp, reference, baseTarget, genSig, tBytes, count, p + 4 + tLength))
  }

  /** The feature votes and the position behind them. */
  function ParseVotes(bytes: ByteStr, version: int, q: int): Option<(seq<int>, int)> {
    if version <= 2 then Some(([], q)) else
    if |Slice(bytes, q, q + 4)| < 4 then None else
    var votes := FromSigned(Slice(bytes, q, q + 4));
    if votes < 0 || |Slice(bytes, q + 4, q + 4 + votes * 2)| < 2 * votes then None else
    Some((ReadShorts(Slice(bytes, q + 4, q + 4 + votes * 2), votes), q + 4 + votes * 2))
  }

  /** BlockHeader.parseBytes: the header and the bytes of the transaction field; None is a failure. */
  function ParseHeader(bytes: ByteStr): Option<(WireHeader, ByteStr)> {
    match ParseFront(bytes)
    case None => None
    case Some(f) =>
      match ParseVotes(bytes, f.version, f.position)
      case None => None
      case Some((votes, p)) =>
        Some((WireHeader(f.version, f.timestamp, f.reference, f.baseTarget, f.generationSignature, f.transactionCount, votes,
                         Slice(bytes, p, p + KEY_LENGTH), Slice(bytes, p + KEY_LENGTH, p + KEY_LENGTH + SIGNATURE_LENGTH)), f.tBytes))
  }

  /** An abstract transaction format: parse understands exactly what encode wrote. */
  datatype TxCodec<!T> = TxCodec(encode: T -> ByteStr, parse: ByteStr -> Option<T>)

  ghost predicate RoundTrips<T(!new)>(codec: TxCodec<T>) {
    forall tx :: codec.parse(codec.encode(tx)) == Some(tx)
  }

  function Encoded<T>(codec: TxCodec<T>, txs: seq<T>): (r: seq<ByteStr>)
    ensures |r| == |txs| && forall i :: 0 <= i < |r| ==> r[i] == codec.encode(txs[i])
  {
    seq(|txs|, i requires 0 <= i < |txs| => codec.encode(txs[i]))
  }

  function ParseFrom<T>(codec: TxCodec<T>, bs: ByteStr, pos: int, count: nat): Option<seq<T>>
    decreases count
  {
    if count == 0 then Some([]) else
    if |Slice(bs, pos, pos + 4)| < 4 then None else
    var length := FromSigned(Slice(bs, pos, pos + 4));
    match codec.parse(Slice(bs, pos + 4, pos + 4 + length))
    case None => None
    case Some(tx) =>
      Behind([tx], ParseFrom(codec, bs, pos + 4 + length, count - 1))
  }

  /** What follows the count in a transaction field, and the count. */
  function CountAndRest(version: int, bytes: ByteStr): Option<(int, ByteStr)> {
    if OldVersion(version) && |bytes| >= 1 then Some((FromSigned(bytes[..1]), bytes[1..]))
    else if version == 3 && |bytes| >= 4 then Some((FromSigned(bytes[..4]), bytes[4..]))
    else None
  }

  function TransactionsOf<T>(codec: TxCodec<T>, version: int, bytes: ByteStr): Option<seq<T>> {
    if bytes == [] then Some([]) else
    match CountAndRest(version, bytes)
    case None => None
    case Some((count, rest)) => ParseFrom(codec, rest, 0, if count < 0 then 0 else count)
  }

  /** The loop of transParseBytes: reads length and transaction as often as the count says. */
  method ParseTransactions<T>(codec: TxCodec<T>, bs: ByteStr, count: nat) returns (r: Option<seq<T>>)
    ensures r == ParseFrom(codec, bs, 0, count)
  {
    hide Slice, FromSigned, ParseFrom, Behind;
    var txs: seq<T>, pos: int, i: nat := [], 0, 0;
    BehindNothing(ParseFrom(codec, bs, 0, count));
    while i < count
      invariant i <= count
      invariant ParseFrom(codec, bs, 0, count) == Behind(txs, ParseFrom(codec, bs, pos, count - i))
    {
      ParseStep(codec, bs, pos, count - i, txs);
      var lengthBytes := Slice(bs, pos, pos + 4);
      if |lengthBytes| < 4 {
        return None;
      }
      var length := FromSigned(lengthBytes);
      var tx := codec.parse(Slice(bs, pos + 4, pos + 4 + length));
      if tx == None {
        return None;
      }
      txs, pos, i := txs + [tx.value], pos + 4 + length, i + 1;
    }
    ParseEnd(codec, bs, pos, txs);
    r := Some(txs);
  }

  /** transParseBytes */
  method TransParseBytes<T>(codec: TxCodec<T>, version: int, bytes: ByteStr) returns (r: Option<seq<T>>)
    ensures r == TransactionsOf(codec, version, bytes)
  {
    hide ParseFrom, CountAndRest;
    if bytes == [] {
      return Some([]);
    }
    var v := CountAndRest(version, bytes);
    if v == None {
      return None;
    }
    var count := v.value.0;
    r := ParseTransactions(codec, v.value.1, if count < 0 then 0 else count);
  }

  lemma ParseEnd<T>(codec: TxCodec<T>, bs: ByteStr, pos: int, txs: seq<T>)
    ensures Behind(txs, ParseFrom(codec, bs, pos, 0)) == Some(txs)
  {
    assert txs + [] == txs;
  }

  lemma ParseStep<T>(codec: TxCodec<T>, bs: ByteStr, pos: int, count: nat, txs: seq<T>)
    requires count > 0
    ensures Behind(txs, ParseFrom(codec, bs, pos, count)) ==
            if |Slice(bs, pos, pos + 4)| < 4 then None else
            var length := FromSigned(Slice(bs, pos, pos + 4));
            match codec.parse(Slice(bs, pos + 4, pos + 4 + length))
            case None => None
            case Some(tx) => Behind(txs + [tx], ParseFrom(codec, bs, pos + 4 + length, count - 1))
  {
    hide Slice, FromSigned;
    var length := FromSigned(Slice(bs, pos, pos + 4));
    var tx := codec.parse(Slice(bs, pos + 4, pos + 4 + length));
    if tx.Some? {
      BehindOneMore(txs, tx.value, ParseFrom(codec, bs, pos + 4 + length, count - 1));
    }
  }

  function Behind<T>(txs: seq<T>, after: Option<seq<T>>): Option<seq<T>> {
    if after == None then None else Some(txs + after.value)
  }

  lemma BehindNothing<T>(after: Option<seq<T>>)
    ensures Behind([], after) == after
  {
    if after.Some? {
      assert [] + after.value == after.value;
    }
  }

  lemma BehindOneMore<T>(txs: seq<T>, tx: T, after: Option<seq<T>>)
    ensures Behind(txs, Behind([tx], after)) == Behind(txs + [tx], after)
  {
    if after.Some? {
      assert txs + ([tx] + after.value) == (txs + [tx]) + after.value;
    }
  }

  lemma {:induction false} ParsesAll<T(!new)>(codec: TxCodec<T>, bs: ByteStr, pos: nat, txs: seq<T>)
    requires RoundTrips(codec) && pos <= |bs| && bs[pos..] == SerTxs(Encoded(codec, txs))
    requires forall i :: 0 <= i < |txs| ==> Fits(|codec.encode(txs[i])|, 4)
    ensures ParseFrom(codec, bs, pos, |txs|) == Some(txs)
    decreases |txs|
  {
    hide SerTxs, Encoded, Slice, FromSigned, Signed, RoundTrips, Fits;
    if txs != [] {
      var length, rest := |codec.encode(txs[0])|, txs[1..];
      ParseHead(codec, bs, pos, txs);
      hide ParseFrom;
      assert forall i :: 0 <= i < |rest| ==> rest[i] == txs[i + 1];
      ParsesAll(codec, bs, pos + 4 + length, rest);
      ParsedHead(codec, bs, pos, |rest|, txs[0], length);
      assert txs == [txs[0]] + rest;
    }
  }

  lemma ParsedHead<T(!new)>(codec: TxCodec<T>, bs: ByteStr, pos: nat, count: nat, tx: T, length: nat)
    requires |Slice(bs, pos, pos + 4)| == 4 && FromSigned(Slice(bs, pos, pos + 4)) == length
    requires codec.parse(Slice(bs, pos + 4, pos + 4 + length)) == Some(tx)
    ensures ParseFrom(codec, bs, pos, count + 1) == Behind([tx], ParseFrom(codec, bs, pos + 4 + length, count))
  {
    hide Slice, FromSigned;
  }

  /** The head of the field is the length and bytes of the first transaction. */
  lemma ParseHead<T(!new)>(codec: TxCodec<T>, bs: ByteStr, pos: nat, txs: seq<T>)
    requires RoundTrips(codec) && pos <= |bs| && bs[pos..] == SerTxs(Encoded(codec, txs)) && txs != []
    requires Fits(|codec.encode(txs[0])|, 4)
    ensures var length := |codec.encode(txs[0])|;
            && |Slice(bs, pos, pos + 4)| == 4 && FromSigned(Slice(bs, pos, pos + 4)) == length
            && codec.parse(Slice(bs, pos + 4, pos + 4 + length)) == Some(txs[0])
            && pos + 4 + length <= |bs| && bs[pos + 4 + length..] == SerTxs(Encoded(codec, txs[1..]))
  {
    hide Slice, FromSigned, Signed;
    var encoded, rest := codec.encode(txs[0]), Encoded(codec, txs[1..]);
    assert Encoded(codec, txs) == [encoded] + rest;
    assert SerTxs(Encoded(codec, txs)) == Signed(|encoded|, 4) + (encoded + SerTxs(rest)) by {
      assert ([encoded] + rest)[1..] == rest;
    }
    hide SerTxs, Encoded;
    SignedRoundTrip(|encoded|, 4);
    Next(bs, pos, Signed(|encoded|, 4), encoded + SerTxs(rest));
    Next(bs, pos + 4, encoded, SerTxs(rest));
  }

  /** Parsing the transaction field gives the transactions, as long as the count survives. */
  lemma TransactionsRoundTrip<T(!new)>(codec: TxCodec<T>, version: int, txs: seq<T>)
    requires RoundTrips(codec) && 1 <= version <= 3 && |txs| < 0x8000 && (version == 3 || |txs| <= 127)
    requires forall i :: 0 <= i < |txs| ==> Fits(|codec.encode(txs[i])|, 4)
    ensures TransactionsOf(codec, version, TransactionField(version, Encoded(codec, txs))) == Some(txs)
  {
    var bytes, rest := TransactionField(version, Encoded(codec, txs)), SerTxs(Encoded(codec, txs));
    CountKept(version, |txs|);
    var n := |CountBytes(version, |txs|)|;
    assert bytes[..n] == CountBytes(version, |txs|) && bytes[n..] == rest;
    assert rest[0..] == rest;
    ParsesAll(codec, rest, 0, txs);
  }

  lemma WireParts(h: WireHeader, txs: seq<ByteStr>)
    requires Built(h)
    ensures var bs, c, t := WireBytes(h, txs), Consensus(h), TransactionField(h.version, txs);
            && |bs| >= 121 + |t| && |c| == 40
            && bs[..1] == Signed(h.version, 1) && Slice(bs, 1, 9) == Signed(h.timestamp, 8) && Slice(bs, 9, 73) == h.reference
            && Slice(bs, 73, 77) == Signed(40, 4) && Slice(bs, 77, 117) == c && Slice(bs, 117, 121) == Signed(|t|, 4)
            && Slice(bs, 121, 121 + |t|) == t && bs[121 + |t|..] == Trailer(h)
  {
    var bs, c, t := WireBytes(h, txs), Consensus(h), TransactionField(h.version, txs);
    var t6 := Trailer(h);
    var t5 := t + t6;
    var t4 := Signed(|t|, 4) + t5;
    var t3 := c + t4;
    var t2 := Signed(|c|, 4) + t3;
    var t1 := h.reference + t2;
    var t0 := Signed(h.timestamp, 8) + t1;
    assert bs[0..] == bs && bs == Signed(h.version, 1) + t0;
    hide Slice, WireBytes, Trailer, TransactionField;
    Next(bs, 0, Signed(h.version, 1), t0);
    Next(bs, 1, Signed(h.timestamp, 8), t1);
    Next(bs, 9, h.reference, t2);
    Next(bs, 73, Signed(|c|, 4), t3);
    Next(bs, 77, c, t4);
    Next(bs, 117, Signed(|t|, 4), t5);
    Next(bs, 121, t, t6);
  }

  lemma FieldCount(version: int, txs: seq<ByteStr>)
    requires 1 <= version <= 3 && |txs| < 0x8000 && (version == 3 || |txs| <= 127)
    ensures var t, n := TransactionField(version, txs), if OldVersion(version) then 1 else 4;
            |t| >= n && FromSigned(t[..n]) == |txs|
  {
    CountKept(version, |txs|);
    assert TransactionField(version, txs)[..|CountBytes(version, |txs|)|] == CountBytes(version, |txs|);
  }

  lemma FrontRoundTrip(h: WireHeader, txs: seq<ByteStr>)
    requires Built(h) && h.transactionCount == |txs| < 0x8000 && (h.version == 3 || |txs| <= 127)
    requires Fits(|TransactionField(h.version, txs)|, 4)
    ensures var t := TransactionField(h.version, txs);
            ParseFront(WireBytes(h, txs)) ==
            Some(Front(h.version, h.timestamp, h.reference, h.baseTarget, h.generationSignature, t, |txs|, 121 + |t|))
  {
    var t := TransactionField(h.version, txs);
    Widths();
    SignedRoundTrip(h.version, 1);
    SignedRoundTrip(h.timestamp, 8);
    SignedRoundTrip(40, 4);
    SignedRoundTrip(h.baseTarget, 8);
    SignedRoundTrip(|t|, 4);
    ConsensusParts(h);
    WireParts(h, txs);
    FieldCount(h.version, txs);
    hide WireBytes, Slice, FromSigned, Signed, Consensus, TransactionField, TakeRight, SerTxs, Trailer, Pow256;
  }

  /** Parsing the wire bytes gives the header and the transaction field back. */
  lemma ParseHeaderRoundTrip(h: WireHeader, txs: seq<ByteStr>)
    requires Built(h) && h.transactionCount == |txs| < 0x8000 && (h.version == 3 || |txs| <= 127)
    requires Fits(|TransactionField(h.version, txs)|, 4)
    ensures ParseHeader(WireBytes(h, txs)) == Some((h, TransactionField(h.version, txs)))
  {
    hide WireBytes, Slice, FromSigned, Signed, Consensus, TransactionField, TakeRight, SerTxs, Trailer, Pow256, ReadShorts, ParseFront;
    var t := TransactionField(h.version, txs);
    FrontRoundTrip(h, txs);
    WireParts(h, txs);
    ParseTrailer(h, WireBytes(h, txs), 121 + |t|);
  }

  lemma ConsensusParts(h: WireHeader)
    requires Built(h)
    ensures var c := Consensus(h); |c| == 40 && c[..8] == Signed(h.baseTarget, 8) && TakeRight(c, 32) == h.generationSignature
  {
  }

  lemma ParseTrailer(h: WireHeader, bs: ByteStr, q: nat)
    requires Built(h) && q <= |bs| && bs[q..] == Trailer(h)
    ensures if h.version > 2 then
              var n := |h.featureVotes|;
              && |Slice(bs, q, q + 4)| == 4 && FromSigned(Slice(bs, q, q + 4)) == n
              && |Slice(bs, q + 4, q + 4 + n * 2)| == 2 * n && ReadShorts(Slice(bs, q + 4, q + 4 + n * 2), n) == h.featureVotes
              && Slice(bs, q + 4 + n * 2, q + 4 + n * 2 + 32) == h.generator
              && Slice(bs, q + 4 + n * 2 + 32, q + 4 + n * 2 + 32 + 64) == h.signature
            else Slice(bs, q, q + 32) == h.generator && Slice(bs, q + 32, q + 32 + 64) == h.signature
  {
    var n := |h.featureVotes|;
    var signer := h.generator + h.signature;
    hide Slice, FromSigned, Shorts, ReadShorts, Signed, Built;
    if h.version > 2 {
      VotesRoundTrip(h);
      assert bs[q..] == Signed(n, 4) + (Shorts(h.featureVotes) + signer);
      Next(bs, q, Signed(n, 4), Shorts(h.featureVotes) + signer);
      Next(bs, q + 4, Shorts(h.featureVotes), signer);
      ParseSigner(h, bs, q + 4 + 2 * n);
    } else {
      assert bs[q..] == signer;
      ParseSigner(h, bs, q);
    }
  }

  lemma VotesRoundTrip(h: WireHeader)
    requires Built(h)
    ensures FromSigned(Signed(|h.featureVotes|, 4)) == |h.featureVotes|
    ensures |Shorts(h.featureVotes)| == 2 * |h.featureVotes| && ReadShorts(Shorts(h.featureVotes), |h.featureVotes|) == h.featureVotes
  {
    Widths();
    SignedRoundTrip(|h.featureVotes|, 4);
    ShortsRoundTrip(h.featureVotes);
  }

  lemma ParseSigner(h: WireHeader, bs: ByteStr, p: nat)
    requires Built(h) && p <= |bs| && bs[p..] == h.generator + h.signature
    ensures Slice(bs, p, p + 32) == h.generator && Slice(bs, p + 32, p + 32 + 64) == h.signature
  {
    hide Slice;
    Next(bs, p, h.generator, h.signature);
    assert h.signature + [] == h.signature;
    Next(bs, p + 32, h.signature, []);
  }

  /** Block.parseBytes */
  function ParseBlock<T>(codec: TxCodec<T>, bytes: ByteStr): Option<(WireHeader, seq<T>)> {
    match ParseHeader(bytes)
    case None => None
    case Some((h, tBytes)) =>
      match TransactionsOf(codec, h.version, tBytes)
      case None => None
      case Some(txs) => if Built(h) then Some((h.(transactionCount := |txs|), txs)) else None
  }

  lemma {:induction false} ParsedCount<T>(codec: TxCodec<T>, bs: ByteStr, pos: int, count: nat)
    ensures ParseFrom(codec, bs, pos, count).Some? ==> |ParseFrom(codec, bs, pos, count).value| == count
    decreases count
  {
    hide Slice, FromSigned;
    if count > 0 {
      ParsedCount(codec, bs, pos + 4 + FromSigned(Slice(bs, pos, pos + 4)), count - 1);
    }
  }

  lemma OldCount<T>(codec: TxCodec<T>, version: int, bytes: ByteStr)
    requires OldVersion(version)
    ensures TransactionsOf(codec, version, bytes).Some? ==> |TransactionsOf(codec, version, bytes).value| <= 127
  {
    if bytes != [] {
      Widths();
      var count := FromSigned(bytes[..1]);
      ParsedCount(codec, bytes[1..], 0, if count < 0 then 0 else count);
    }
  }

  /**
   A block that is spliced from its stored parts and parsed again is the block that was stored, except for old versions with
   more than 127 transactions.
   */
  lemma LoadedBlockParses<T(!new)>(codec: TxCodec<T>, h: WireHeader, txs: seq<T>)
    requires RoundTrips(codec) && Built(h) && h.transactionCount == |txs| < 0x8000
    requires forall i :: 0 <= i < |txs| ==> Fits(|codec.encode(txs[i])|, 4)
    requires Fits(|TransactionField(h.version, Encoded(codec, txs))|, 4)
    ensures var bytes := LoadBlockBytes(HeaderBytes(h), StoredTransactions(Encoded(codec, txs)));
            bytes.Some? && ParseBlock(codec, bytes.value) == Some((h, txs)) <==> h.version == 3 || |txs| <= 127
  {
    hide LoadBlockBytes, HeaderBytes, WireBytes, TransactionField, StoredTransactions, ParseHeader, TransactionsOf;
    if h.version == 3 || |txs| <= 127 {
      SpliceExact(h, Encoded(codec, txs));
      ParseHeaderRoundTrip(h, Encoded(codec, txs));
      TransactionsRoundTrip(codec, h.version, txs);
    } else {
      var bytes := LoadBlockBytes(HeaderBytes(h), StoredTransactions(Encoded(codec, txs)));
      if bytes.Some? && ParseHeader(bytes.value).Some? && OldVersion(ParseHeader(bytes.value).value.0.version) {
        OldCount(codec, ParseHeader(bytes.value).value.0.version, ParseHeader(bytes.value).value.1);
      }
    }
  }
}
