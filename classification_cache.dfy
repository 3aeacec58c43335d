/** The memo table in front of the marker walk: definition type, then marker, then the
    walk's answer, None ("no match") included. */
module ClassificationCache {
  import opened Wrappers
  import opened Types
  import opened MarkerWalk

  type Cache = map<Type, map<Marker, Option<Type>>>

  predicate IsCached(c: Cache, t: Type, generic: Marker) {
    t in c && generic in c[t]
  }

  /** Every cached answer is the one the uncached walk gives. */
  ghost predicate CacheSound(c: Cache) {
    forall t, g :: t in c && g in c[t] ==> c[t][g] == FirstTypeArgument(Some(t), g)
  }

  /** The cache after one lookup of (`t`, `generic`): a miss stores the walk's answer
      under that key, creating the inner table when `t` has none; a hit changes nothing. */
  function CacheAfter(c: Cache, t: Type, generic: Marker): (r: Cache)
    ensures IsCached(r, t, generic)
    ensures !IsCached(c, t, generic) ==> r[t][generic] == FirstTypeArgument(Some(t), generic)
    ensures IsCached(c, t, generic) ==> r == c
    ensures forall t', g :: t' in c && g in c[t'] ==> t' in r && g in r[t'] && r[t'][g] == c[t'][g]
    ensures forall t', g :: t' in r && g in r[t'] ==> (t' in c && g in c[t']) || (t' == t && g == generic)
    ensures CacheSound(c) ==> CacheSound(r)
  {
    if t !in c then c[t := map[generic := FirstTypeArgument(Some(t), generic)]]
    else if generic !in c[t] then c[t := c[t][generic := FirstTypeArgument(Some(t), generic)]]
    else c
  }

  /** A repeated lookup finds the cache exactly as the first lookup left it. */
  lemma CacheAfterIsIdempotent(c: Cache, t: Type, generic: Marker)
    ensures CacheAfter(CacheAfter(c, t, generic), t, generic) == CacheAfter(c, t, generic)
  {
  }
}
