/** Byte sequences: big-endian integers as ByteBuffer writes them, slices, and the order of keys. */
module Bytes {
  import opened Common

  function Pow256(k: nat): (r: nat)
    ensures r > 0
  {
    if k == 0 then 1 else 256 * Pow256(k - 1)
  }

  // ---- unsigned ----

  function BigEndian(x: nat, k: nat): (r: ByteStr)
    requires x < Pow256(k)
    ensures |r| == k
  {
    if k == 0 then [] else BigEndian(x / 256, k - 1) + [(x % 256) as byte]
  }

  function FromBigEndian(bs: ByteStr): (r: nat)
    ensures r < Pow256(|bs|)
  {
    if bs == [] then 0 else FromBigEndian(bs[..|bs| - 1]) * 256 + bs[|bs| - 1] as nat
  }

  lemma {:induction false} BigEndianRoundTrip(x: nat, k: nat)
    requires x < Pow256(k)
    ensures FromBigEndian(BigEndian(x, k)) == x
  {
    if k > 0 {
      BigEndianRoundTrip(x / 256, k - 1);
      assert BigEndian(x, k)[..k - 1] == BigEndian(x / 256, k - 1);
    }
  }

  // ---- signed, as the JVM's integers ----

  /** The 8k-bit two's complement bytes of an integer; higher bits are cut off. */
  function Signed(x: int, k: nat): (r: ByteStr)
    ensures |r| == k
  {
    BigEndian(x % Pow256(k), k)
  }

  function FromSigned(bs: ByteStr): int {
    var u := FromBigEndian(bs);
    if 2 * u < Pow256(|bs|) then u else u - Pow256(|bs|)
  }

  predicate Fits(x: int, k: nat) {
    -(Pow256(k) as int) <= 2 * x < Pow256(k)
  }

  /** Reading back what was written gives the integer exactly if it fits. */
  lemma SignedRoundTrip(x: int, k: nat)
    requires k > 0
    ensures FromSigned(Signed(x, k)) == x <==> Fits(x, k)
  {
    var m := Pow256(k);
    BigEndianRoundTrip(x % m, k);
    if Fits(x, k) {
      if x >= 0 { SmallMod(x, m); } else { NegativeMod(x, m); }
    }
  }

  lemma SmallMod(x: nat, m: nat)
    requires x < m
    ensures x % m == x
  {
  }

  lemma NegativeMod(x: int, m: nat)
    requires 0 <= x + m && x < 0
    ensures x % m == x + m
  {
    var q, r := x / m, x % m;
    assert x == q * m + r;
    assert q == -1;
  }

  lemma Widths()
    ensures Pow256(1) == 0x100 && Pow256(2) == 0x1_0000 && Pow256(4) == 0x1_0000_0000 && Pow256(8) == 0x1_0000_0000_0000_0000
  {
    assert Pow256(2) == 256 * Pow256(1);
    assert Pow256(3) == 256 * Pow256(2);
    assert Pow256(4) == 256 * Pow256(3);
    assert Pow256(5) == 256 * Pow256(4);
    assert Pow256(6) == 256 * Pow256(5);
    assert Pow256(7) == 256 * Pow256(6);
    assert Pow256(8) == 256 * Pow256(7);
  }

  // ---- slices ----

  /** Array.slice: bounds outside the array are moved to its ends. */
  function Slice(bs: ByteStr, from: int, until: int): ByteStr {
    var lo := if from < 0 then 0 else if from > |bs| then |bs| else from;
    var hi := if until > |bs| then |bs| else until;
    if hi <= lo then [] else bs[lo..hi]
  }

  function Drop(bs: ByteStr, n: nat): ByteStr {
    if n >= |bs| then [] else bs[n..]
  }

  function TakeRight(bs: ByteStr, n: nat): ByteStr {
    if n >= |bs| then bs else bs[|bs| - n..]
  }

  /** Reading on from a position: the next part is found there, and the rest behind it. */
  lemma Next(bs: ByteStr, pos: nat, part: ByteStr, rest: ByteStr)
    requires pos <= |bs| && bs[pos..] == part + rest
    ensures pos + |part| + |rest| == |bs| && bs[pos..pos + |part|] == part && Slice(bs, pos, pos + |part|) == part
    ensures bs[pos + |part|..] == rest
  {
    assert bs[pos..pos + |part|] == bs[pos..][..|part|];
    assert bs[pos + |part|..] == bs[pos..][|part|..];
  }

  // ---- keys ----

  /** The order of keys in the database: unsigned bytes, from the left. */
  predicate KeyLess(a: ByteStr, b: ByteStr) {
    b != [] && (a == [] || a[0] < b[0] || (a[0] == b[0] && KeyLess(a[1..], b[1..])))
  }

  lemma {:induction false} KeyLessConcat(a: ByteStr, b: ByteStr, c: ByteStr, d: ByteStr)
    requires |a| == |b|
    ensures KeyLess(a + c, b + d) <==> KeyLess(a, b) || (a == b && KeyLess(c, d))
  {
    if a == [] {
      assert a + c == c && b + d == d;
    } else {
      assert (a + c)[1..] == a[1..] + c && (b + d)[1..] == b[1..] + d;
      KeyLessConcat(a[1..], b[1..], c, d);
      assert a == b <==> a[0] == b[0] && a[1..] == b[1..];
    }
  }

  lemma {:induction false} BigEndianOrder(x: nat, y: nat, k: nat)
    requires x < Pow256(k) && y < Pow256(k)
    ensures KeyLess(BigEndian(x, k), BigEndian(y, k)) <==> x < y
    ensures BigEndian(x, k) == BigEndian(y, k) <==> x == y
  {
    BigEndianRoundTrip(x, k);
    BigEndianRoundTrip(y, k);
    if k > 0 {
      BigEndianOrder(x / 256, y / 256, k - 1);
      var a, b := [(x % 256) as byte], [(y % 256) as byte];
      KeyLessConcat(BigEndian(x / 256, k - 1), BigEndian(y / 256, k - 1), a, b);
      assert KeyLess(a, b) <==> x % 256 < y % 256;
    }
  }

  /** KeyHelpers.hNum: prefix, height and number, each big-endian. */
  function HNum(prefix: nat, height: int, num: int): ByteStr
    requires prefix < Pow256(2)
  {
    BigEndian(prefix, 2) + Signed(height, 4) + Signed(num, 2)
  }

  lemma NonNegative(x: int, k: nat)
    requires 0 <= x && Fits(x, k)
    ensures Signed(x, k) == BigEndian(x, k)
  {
    SmallMod(x, Pow256(k));
  }

  /** For heights and numbers that are not negative, the keys of one prefix are in the order of (height, number). */
  lemma HNumOrder(prefix: nat, h: nat, n: nat, h': nat, n': nat)
    requires prefix < Pow256(2) && Fits(h, 4) && Fits(h', 4) && Fits(n, 2) && Fits(n', 2)
    ensures KeyLess(HNum(prefix, h, n), HNum(prefix, h', n')) <==> h < h' || (h == h' && n < n')
  {
    NonNegative(h, 4);
    NonNegative(h', 4);
    NonNegative(n, 2);
    NonNegative(n', 2);
    BigEndianOrder(h, h', 4);
    BigEndianOrder(n, n', 2);
    var p := BigEndian(prefix, 2);
    BigEndianOrder(prefix, prefix, 2);
    KeyLessConcat(BigEndian(h, 4), BigEndian(h', 4), BigEndian(n, 2), BigEndian(n', 2));
    KeyLessConcat(p, p, BigEndian(h, 4) + BigEndian(n, 2), BigEndian(h', 4) + BigEndian(n', 2));
    assert HNum(prefix, h, n) == p + (BigEndian(h, 4) + BigEndian(n, 2));
    assert HNum(prefix, h', n') == p + (BigEndian(h', 4) + BigEndian(n', 2));
  }
}
