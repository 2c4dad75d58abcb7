/** A lookup table that answers a fixed default value for every key it does
    not hold. Binding a key inserts it only when it is absent: the first
    binding of a key wins and is never overwritten. */
module DefaultMaps {

  /** What a lookup answers: the bound value, or the default for an absent key. */
  function Find<K, V>(bindings: map<K, V>, defaultValue: V, key: K): V {
    if key in bindings then bindings[key] else defaultValue
  }

  /** Insertion that keeps an existing binding: the table after binding `key`
      to `value`. */
  function Insert<K, V>(bindings: map<K, V>, key: K, value: V): map<K, V> {
    if key in bindings then bindings else bindings[key := value]
  }

  /** After an insertion, the inserted key answers the new value if it was
      absent and its old value otherwise; every other key answers as before. */
  lemma FindAfterInsert<K, V>(bindings: map<K, V>, defaultValue: V, key: K, value: V, other: K)
    ensures Find(Insert(bindings, key, value), defaultValue, key) ==
              if key in bindings then bindings[key] else value
    ensures other != key ==>
              Find(Insert(bindings, key, value), defaultValue, other) == Find(bindings, defaultValue, other)
  {
  }

  /** The first binding wins: binding a key a second time changes nothing. */
  lemma InsertTwiceKeepsFirst<K, V>(bindings: map<K, V>, key: K, first: V, second: V)
    ensures Insert(Insert(bindings, key, first), key, second) == Insert(bindings, key, first)
  {
  }

  class DefaultMap<K(==), V> {
    var bindings: map<K, V>
    var defaultValue: V

    /** An empty table that answers `defaultValue` for every key. */
    constructor (defaultValue: V)
      ensures bindings == map[] && this.defaultValue == defaultValue
      ensures forall key :: Lookup(key) == defaultValue
    {
      bindings := map[];
      this.defaultValue := defaultValue;
    }

    /** The value the table answers for `key` in the current state. */
    ghost function Lookup(key: K): V
      reads this
    {
      Find(bindings, defaultValue, key)
    }

    /** The subscript operator. It tests for the key before reading it, so a
        lookup of an absent key answers the default and does not add the key
        (the method modifies nothing). */
    method Get(key: K) returns (v: V)
      ensures key in bindings ==> v == bindings[key]
      ensures key !in bindings ==> v == defaultValue
      ensures v == Lookup(key)
    {
      if key !in bindings {
        return defaultValue;
      }
      return bindings[key];
    }

    /** Binds `key` to `value` unless `key` is already bound. */
    method Set(key: K, value: V)
      modifies this
      ensures bindings == Insert(old(bindings), key, value)
      ensures defaultValue == old(defaultValue)
      ensures Lookup(key) == if key in old(bindings) then old(Lookup(key)) else value
      ensures forall other :: other != key ==> Lookup(other) == Find(old(bindings), old(defaultValue), other)
    {
      if key !in bindings {
        bindings := bindings[key := value];
      }
      FindAfterInsert(old(bindings), defaultValue, key, value, key);
      forall other | other != key
        ensures Lookup(other) == Find(old(bindings), old(defaultValue), other)
      {
        FindAfterInsert(old(bindings), defaultValue, key, value, other);
      }
    }
  }
}
