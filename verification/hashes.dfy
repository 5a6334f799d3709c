/** Insertion-ordered hashes, the way Ruby's Hash behaves. */
module Hashes {

  /**
   * A hash that remembers the order in which its keys were first inserted.
   * Storing under a key that is already present replaces the value and keeps
   * the key's position; a new key goes to the end.
   */
  datatype Hash<K, V> = Hash(order: seq<K>, entries: map<K, V>) {

    /** Every key appears exactly once in `order`, and `order` lists exactly the keys. */
    predicate Valid() {
      && (forall i, j :: 0 <= i < j < |order| ==> order[i] != order[j])
      && (forall k :: k in order ==> k in entries)
      && (forall k :: k in entries ==> k in order)
    }

    /** Ruby's `hash[k] = v`. */
    function Put(k: K, v: V): (h: Hash<K, V>)
      requires Valid()
      ensures h.Valid()
      ensures h.entries == entries[k := v]
      ensures k in entries ==> h.order == order
      ensures k !in entries ==> h.order == order + [k]
    {
      Hash(if k in entries then order else order + [k], entries[k := v])
    }
  }

  /** A fresh, empty hash (`{}`). */
  function Empty<K, V>(): (h: Hash<K, V>)
    ensures h.Valid()
    ensures h.entries == map[]
  {
    Hash([], map[])
  }
}
