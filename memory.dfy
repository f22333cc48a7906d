/**
 * The in-memory cache: a dictionary from configuration to instantiated node.
 * It offers the three operations of the cache interface the evaluator uses:
 * membership, lookup and assignment. `verbose` only switches logging on.
 */
module Memory {
  import opened Wrappers

  /** The exception `store[key]` raises for an absent key. */
  datatype KeyError = KeyError

  class InMemoryCache<K(==), V> {
    var store: map<K, V>
    const verbose: bool

    constructor (verbose: bool)
      ensures store == map[] && this.verbose == verbose
    {
      store := map[];
      this.verbose := verbose;
    }

    /** `key in cache`. */
    method Contains(key: K) returns (b: bool)
      ensures b <==> key in store
    {
      b := key in store;
    }

    /** `cache[key]`: the stored value, or KeyError for an absent key. */
    method Get(key: K) returns (r: Result<V, KeyError>)
      ensures key in store ==> r == Ok(store[key])
      ensures key !in store ==> r == Err(KeyError)
    {
      if key in store {
        r := Ok(store[key]);
      } else {
        r := Err(KeyError);
      }
    }

    /** `cache[key] = value`: stores or overwrites `key`; every other key keeps its value. */
    method Set(key: K, value: V)
      modifies this
      ensures store == old(store)[key := value]
    {
      store := store[key := value];
    }
  }
}
