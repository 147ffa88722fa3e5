/** Types shared by the whole model. */
module Common {
  datatype Option<+T> = None | Some(value: T) {
    function GetOr(default: T): T {
      match this
      case Some(v) => v
      case None => default
    }
  }

  newtype byte = b: int | 0 <= b < 256

  /** The source's ByteStr: an immutable array of bytes. */
  type ByteStr = seq<byte>

  /** A table of the database: the keys of one prefix with their values. */
  function Lookup<K, V>(table: map<K, V>, key: K): Option<V> {
    if key in table then Some(table[key]) else None
  }

  /** A write batch for one table: a put is Some, a delete is None, a later write to a key replaces an earlier one. */
  type Writes<K, V> = map<K, Option<V>>

  /** The table once the batch has been committed. */
  function Commit<K, V>(table: map<K, V>, writes: Writes<K, V>): map<K, V> {
    map k | k in table.Keys + writes.Keys && (k in writes ==> writes[k].Some?)
      :: if k in writes then writes[k].value else table[k]
  }

  lemma CommitAt<K, V>(table: map<K, V>, writes: Writes<K, V>, k: K)
    ensures Lookup(Commit(table, writes), k) == if k in writes then writes[k] else Lookup(table, k)
  {
  }

  lemma SameTable<K(!new), V(!new)>(a: map<K, V>, b: map<K, V>)
    requires forall k :: Lookup(a, k) == Lookup(b, k)
    ensures a == b
  {
    forall k ensures k in a <==> k in b
             ensures k in a ==> a[k] == b[k]
    {
      assert Lookup(a, k) == Lookup(b, k);
    }
  }
}
