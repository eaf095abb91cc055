/** Query keys: arrays of atoms, compared the way the invalidation filters compare them. */
module QueryKey {
  import opened Wrappers

  /** A key element: a string, a number, `{ filters }` or `{ page, limit }`. */
  datatype Atom = Str(s: string) | Num(n: int) | Filters(filters: string) | PageLimit(page: int, limit: int)

  type Key = seq<Atom>

  /** `key[i]`, `undefined` past the end. */
  function At(key: Key, i: nat): (a: Option<Atom>)
    ensures a.Some? <==> i < |key|
  {
    if i < |key| then Some(key[i]) else None
  }

  /** A key given to `invalidateQueries({ queryKey })` names every key it is a prefix of. */
  predicate StartsWith(key: Key, prefix: Key) {
    prefix <= key
  }

  /** The keys a list of `queryKey` filters names. */
  predicate CoveredBy(key: Key, prefixes: seq<Key>) {
    exists i :: 0 <= i < |prefixes| && StartsWith(key, prefixes[i])
  }

  /** Prefixes compose: a key under `p + q` is under `p`. */
  lemma StartsWithAppend(key: Key, p: Key, q: Key)
    requires StartsWith(key, p + q)
    ensures StartsWith(key, p)
  {
    assert (p + q)[..|p|] == p;
  }

  /** Two keys that differ at an index both have cannot share a prefix that long. */
  lemma DifferAt(k1: Key, k2: Key, i: nat)
    requires i < |k1| && i < |k2| && k1[i] != k2[i]
    ensures !(k1 <= k2) && !(k2 <= k1) && k1 != k2
  {
  }
}
