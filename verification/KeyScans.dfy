/**
 Scans of the database in the byte order of its keys: under the keys of transactions and of queued events they meet exactly
 what the model lists in ascending order.
 */
module KeyScans {
  import opened Common
  import opened Types
  import opened Enumerations
  import opened Bytes
  import opened Tables
  import opened Batches
  import LocalQueue

  ghost predicate KeysRise(keys: seq<ByteStr>) {
    forall i, j :: 0 <= i < j < |keys| ==> KeyLess(keys[i], keys[j])
  }

  lemma {:induction false} NotLessItself(a: ByteStr)
    ensures !KeyLess(a, a)
  {
    if a != [] { NotLessItself(a[1..]); }
  }

  lemma FirstIn(keys: seq<ByteStr>)
    ensures keys != [] ==> keys[0] in keys
  {
  }

  /** The encoding keeps the order of the numbers. */
  ghost predicate KeepsOrder(s: set<nat>, f: nat -> ByteStr) {
    forall x, y :: x in s && y in s ==> (KeyLess(f(x), f(y)) <==> x < y)
  }

  /** Rising keys that are exactly the encoded numbers are the encodings of the numbers in ascending order. */
  lemma {:induction false} RisingKeys(s: set<nat>, f: nat -> ByteStr, keys: seq<ByteStr>)
    requires KeysRise(keys) && KeepsOrder(s, f)
    requires forall key :: key in keys <==> exists x :: x in s && f(x) == key
    ensures |keys| == |Ascending(s)| && forall i :: 0 <= i < |keys| ==> keys[i] == f(Ascending(s)[i])
  {
    if s == {} {
      FirstIn(keys);
    } else {
      var m := Least(s);
      LeastFirst(s, f, keys);
      forall key ensures key in keys[1..] <==> exists x :: x in s - {m} && f(x) == key {
        LaterKey(s, f, keys, key);
      }
      RisingKeys(s - {m}, f, keys[1..]);
      forall i | 0 < i < |keys| ensures keys[i] == f(Ascending(s)[i]) {
        assert keys[i] == keys[1..][i - 1];
      }
    }
  }

  lemma LeastFirst(s: set<nat>, f: nat -> ByteStr, keys: seq<ByteStr>)
    requires s != {} && KeysRise(keys) && KeepsOrder(s, f)
    requires forall key :: key in keys <==> exists x :: x in s && f(x) == key
    ensures keys != [] && keys[0] == f(Least(s))
  {
    var m := Least(s);
    assert f(m) in keys;
    var j :| 0 <= j < |keys| && keys[j] == f(m);
    assert keys[0] in keys;
    var x :| x in s && f(x) == keys[0];
    assert !KeyLess(f(x), f(m));
    assert j == 0;
  }

  lemma LaterKey(s: set<nat>, f: nat -> ByteStr, keys: seq<ByteStr>, key: ByteStr)
    requires s != {} && KeysRise(keys) && KeepsOrder(s, f) && keys != [] && keys[0] == f(Least(s))
    requires forall key :: key in keys <==> exists x :: x in s && f(x) == key
    ensures key in keys[1..] <==> exists x :: x in s - {Least(s)} && f(x) == key
  {
    var m := Least(s);
    NotLessItself(keys[0]);
    if key in keys[1..] {
      var i :| 1 <= i < |keys| && keys[i] == key;
      assert KeyLess(keys[0], keys[i]) && key in keys;
      var x :| x in s && f(x) == key;
      assert x in s - {m};
    }
    if exists x :: x in s - {m} && f(x) == key {
      var x :| x in s - {m} && f(x) == key;
      assert KeyLess(f(m), f(x));
      assert key in keys;
      var i :| 0 <= i < |keys| && keys[i] == key;
      assert keys[1..][i - 1] == key;
    }
  }

  predicate StartsWith(key: ByteStr, prefix: ByteStr) {
    |prefix| <= |key| && key[..|prefix|] == prefix
  }

  // ---- transactions at a height ----

  const TRANSACTION_INFO_PREFIX: nat := 51

  function TransactionKey(height: nat, n: nat): ByteStr {
    Widths();
    HNum(TRANSACTION_INFO_PREFIX, height, n)
  }

  function HeightPrefix(height: nat): ByteStr {
    Widths();
    BigEndian(TRANSACTION_INFO_PREFIX, 2) + Signed(height, 4)
  }

  /** Heights and numbers fit the widths of the keys. */
  ghost predicate KeysFit(t: BlockTables) {
    forall p :: p in t.transactionAt ==> Fits(p.0, 4) && Fits(p.1, 2)
  }

  lemma KeyParts(height: nat, n: nat)
    requires Fits(n, 2)
    ensures StartsWith(TransactionKey(height, n), HeightPrefix(height)) && FromSigned(Slice(TransactionKey(height, n), 6, 8)) == n
    ensures TransactionKey(height, n)[..6] == HeightPrefix(height)
    ensures |TransactionKey(height, n)| == 8 && TransactionKey(height, n)[..2] == [0, 51]
  {
    Widths();
    assert BigEndian(51, 2) == BigEndian(0, 1) + [51] && BigEndian(0, 1) == BigEndian(0, 0) + [0];
    var prefix, key := HeightPrefix(height), TransactionKey(height, n);
    assert key == prefix + Signed(n, 2) && |prefix| == 6;
    assert key[6..8] == Signed(n, 2);
    SignedRoundTrip(n, 2);
  }

  lemma SameHeightPrefix(height: nat, other: nat, n: nat)
    requires Fits(height, 4) && Fits(other, 4) && Fits(n, 2)
    ensures StartsWith(TransactionKey(other, n), HeightPrefix(height)) <==> other == height
  {
    KeyParts(other, n);
    if HeightPrefix(other) == HeightPrefix(height) {
      assert HeightPrefix(other)[2..] == Signed(other, 4) && HeightPrefix(height)[2..] == Signed(height, 4);
      SignedRoundTrip(height, 4);
      SignedRoundTrip(other, 4);
    }
  }

  /**
   iterateOver meets the keys with the prefix of the height in rising byte order. The numbers read off these keys are those
   stored at the height in ascending order, so the scan of transactionsAtHeight is what TransactionsAt says.
   */
  lemma ScanAtHeight(t: BlockTables, height: nat, keys: seq<ByteStr>)
    requires KeysFit(t) && Fits(height, 4) && KeysRise(keys)
    requires forall key :: key in keys <==>
               StartsWith(key, HeightPrefix(height)) && exists p :: p in t.transactionAt && key == TransactionKey(p.0, p.1)
    ensures |TransactionsAt(t, height)| == |keys|
    ensures forall i :: 0 <= i < |keys| ==> TransactionsAt(t, height)[i].0 == FromSigned(Slice(keys[i], 6, 8))
  {
    hide StartsWith, TransactionKey, HeightPrefix, Fits, Slice, FromSigned, KeyLess;
    var s, f := NumbersAt(t, height), (n: nat) => TransactionKey(height, n);
    forall key ensures key in keys <==> exists n :: n in s && f(n) == key {
      KeyAtHeight(t, height, key);
    }
    forall x, y | x in s && y in s ensures KeyLess(f(x), f(y)) <==> x < y {
      assert (height, x) in t.transactionAt && (height, y) in t.transactionAt;
      NumberOrder(height, x, y);
    }
    RisingKeys(s, f, keys);
    forall i | 0 <= i < |keys| ensures Ascending(s)[i] == FromSigned(Slice(keys[i], 6, 8)) {
      assert Ascending(s)[i] in Ascending(s);
      assert (height, Ascending(s)[i]) in t.transactionAt;
      KeyParts(height, Ascending(s)[i]);
    }
  }

  lemma NumberOrder(height: nat, x: nat, y: nat)
    requires Fits(height, 4) && Fits(x, 2) && Fits(y, 2)
    ensures KeyLess(TransactionKey(height, x), TransactionKey(height, y)) <==> x < y
  {
    Widths();
    HNumOrder(TRANSACTION_INFO_PREFIX, height, x, height, y);
  }

  lemma KeyAtHeight(t: BlockTables, height: nat, key: ByteStr)
    requires KeysFit(t) && Fits(height, 4)
    ensures StartsWith(key, HeightPrefix(height)) && (exists p :: p in t.transactionAt && key == TransactionKey(p.0, p.1))
            <==> exists n :: n in NumbersAt(t, height) && TransactionKey(height, n) == key
  {
    hide StartsWith, TransactionKey, HeightPrefix, Fits;
    if exists p :: p in t.transactionAt && key == TransactionKey(p.0, p.1) {
      var p :| p in t.transactionAt && key == TransactionKey(p.0, p.1);
      SameHeightPrefix(height, p.0, p.1);
      assert p == (p.0, p.1);
    }
    if exists n :: n in NumbersAt(t, height) && TransactionKey(height, n) == key {
      var n :| n in NumbersAt(t, height) && TransactionKey(height, n) == key;
      assert (height, n) in t.transactionAt;
      SameHeightPrefix(height, height, n);
    }
  }

  // ---- queued events ----

  const QUEUE_PREFIX: nat := 21

  function EventKey(offset: nat): ByteStr {
    Widths();
    BigEndian(QUEUE_PREFIX, 2) + Signed(offset, 8)
  }

  lemma EventKeyOrder(x: nat, y: nat)
    requires Fits(x, 8) && Fits(y, 8)
    ensures KeyLess(EventKey(x), EventKey(y)) <==> x < y
    ensures |EventKey(x)| == 10 && EventKey(x)[..2] == [0, 21]
  {
    Widths();
    assert BigEndian(21, 2) == BigEndian(0, 1) + [21] && BigEndian(0, 1) == BigEndian(0, 0) + [0];
    NonNegative(x, 8);
    NonNegative(y, 8);
    BigEndianOrder(x, y, 8);
    BigEndianOrder(QUEUE_PREFIX, QUEUE_PREFIX, 2);
    KeyLessConcat(BigEndian(QUEUE_PREFIX, 2), BigEndian(QUEUE_PREFIX, 2), Signed(x, 8), Signed(y, 8));
  }

  /** Reading on from the key of an offset meets the events that ReadFrom lists, in its order. */
  lemma ScanFromOffset(disk: map<nat, LocalQueue.Event>, offset: nat, keys: seq<ByteStr>)
    requires Fits(offset, 8) && (forall o :: o in disk ==> Fits(o, 8)) && KeysRise(keys)
    requires forall key :: key in keys <==> exists o :: o in disk && key == EventKey(o) && !KeyLess(key, EventKey(offset))
    ensures |LocalQueue.ReadFrom(disk, offset)| == |keys|
    ensures forall i :: 0 <= i < |keys| ==> keys[i] == EventKey(LocalQueue.ReadFrom(disk, offset)[i].offset)
  {
    hide EventKey, Fits, KeyLess;
    var s, f := set o | o in disk && o >= offset, (o: nat) => EventKey(o);
    forall o | o in disk ensures KeyLess(EventKey(o), EventKey(offset)) <==> o < offset {
      EventKeyOrder(o, offset);
    }
    forall key ensures key in keys <==> exists o :: o in s && f(o) == key {
      if key in keys {
        var o :| o in disk && key == EventKey(o) && !KeyLess(key, EventKey(offset));
        assert o in s && f(o) == key;
      }
      if exists o :: o in s && f(o) == key {
        var o :| o in s && f(o) == key;
        assert o in disk && key == EventKey(o) && !KeyLess(key, EventKey(offset));
      }
    }
    forall x, y | x in s && y in s ensures KeyLess(f(x), f(y)) <==> x < y {
      EventKeyOrder(x, y);
    }
    RisingKeys(s, f, keys);
  }
}
