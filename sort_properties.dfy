/** What the sort guarantees: it emits a permutation of the pending customizers, an ancestor's
    customizer before its descendants', the lowest-index candidate first, and it fails exactly
    when the targets contain an ancestor cycle. */
module SortProperties {
  import opened Wrappers
  import opened Types
  import opened TopologicalSort

  /** Every key of the cache is the target of some pending customizer. */
  ghost predicate Covered(pending: seq<Customizer>, baseTypeCache: BaseTypeCache) {
    forall t {:trigger IsTargetOf(pending, t)} :: t in baseTypeCache ==> IsTargetOf(pending, t)
  }

  ghost predicate IsTargetOf(pending: seq<Customizer>, t: Type) {
    exists i :: 0 <= i < |pending| && pending[i].target == t
  }

  /** A non-empty set of cache keys each of which has an ancestor in the set: while all of
      them are keys, every customizer targeting one of them is held back. */
  ghost predicate BlockedSet(s: set<Type>, baseTypeCache: BaseTypeCache) {
    s != {} && s <= baseTypeCache.Keys &&
    forall t {:trigger HasCachedAncestorIn(baseTypeCache, t, s)} :: t in s ==> HasCachedAncestorIn(baseTypeCache, t, s)
  }

  /** `t` has a cache entry listing some member of `s`. */
  ghost predicate HasCachedAncestorIn(baseTypeCache: BaseTypeCache, t: Type, s: set<Type>) {
    t in baseTypeCache && exists a :: a in baseTypeCache[t] && a in s
  }

  /** A non-empty set of domain types each of which lists another member of the set
      (possibly itself) among its ancestors. */
  ghost predicate AncestorCycle(s: set<Type>, ancestors: Type -> seq<Type>) {
    s != {} && forall t {:trigger HasAncestorIn(ancestors, t, s)} :: t in s ==> HasAncestorIn(ancestors, t, s)
  }

  /** Some ancestor of `t` is a member of `s`. */
  ghost predicate HasAncestorIn(ancestors: Type -> seq<Type>, t: Type, s: set<Type>) {
    exists a :: a in ancestors(t) && a in s
  }

  /** For every emitted customizer whose target still had a cache entry, each of the target's
      ancestors that was a key is the target of a customizer emitted earlier. */
  ghost predicate AncestorTargetsFirst(out: seq<Customizer>, baseTypeCache: BaseTypeCache) {
    forall i, a ::
      (0 <= i < |out| && out[i].target in baseTypeCache &&
       a in baseTypeCache[out[i].target] && a in baseTypeCache) ==>
      exists j :: 0 <= j < i && out[j].target == a
  }

  ghost predicate DistinctTargets(s: seq<Customizer>) {
    forall i, j :: 0 <= i < j < |s| ==> s[i].target != s[j].target
  }

  /** `IsTargetOf` is membership in `Targets`, phrased by index so that it can serve as a trigger. */
  lemma IsTargetOfIsTargets(pending: seq<Customizer>, t: Type)
    ensures IsTargetOf(pending, t) <==> t in Targets(pending)
  {
    if t in Targets(pending) {
      var c :| c in pending && c.target == t;
      var i :| 0 <= i < |pending| && pending[i] == c;
    }
  }

  /** A customizer is held back exactly when its target has a cached ancestor among the keys. */
  lemma HasBaseClassIsCachedAncestor(c: Customizer, baseTypeCache: BaseTypeCache)
    ensures HasBaseClass(c, baseTypeCache) <==> HasCachedAncestorIn(baseTypeCache, c.target, baseTypeCache.Keys)
  {
  }

  /** A successful sort emits every pending customizer exactly once. */
  lemma {:induction false} SortIsPermutation(pending: seq<Customizer>, baseTypeCache: BaseTypeCache)
    ensures Sort(pending, baseTypeCache).Success? ==>
      multiset(Sort(pending, baseTypeCache).value) == multiset(pending)
    decreases |pending|
  {
    if |pending| > 0 {
      match FirstEmittableFrom(pending, baseTypeCache, 0)
      case None =>
      case Some(k) =>
        var rest := Sort(RemoveAt(pending, k), baseTypeCache - {pending[k].target});
        SortIsPermutation(RemoveAt(pending, k), baseTypeCache - {pending[k].target});
        if rest.Success? {
          assert multiset([pending[k]] + rest.value) == multiset{pending[k]} + multiset(rest.value);
        }
    }
  }

  /** The first emitted customizer is the lowest-index pending one that is not held back. */
  lemma SortEmitsLowestIndexFirst(pending: seq<Customizer>, baseTypeCache: BaseTypeCache)
    requires |pending| > 0
    ensures Sort(pending, baseTypeCache).Success? ==>
      exists k :: 0 <= k < |pending| && Sort(pending, baseTypeCache).value[0] == pending[k] &&
        !HasBaseClass(pending[k], baseTypeCache) &&
        forall j :: 0 <= j < k ==> HasBaseClass(pending[j], baseTypeCache)
  {
    match FirstEmittableFrom(pending, baseTypeCache, 0)
    case None =>
    case Some(k) =>
      if Sort(pending, baseTypeCache).Success? {
        assert Sort(pending, baseTypeCache).value[0] == pending[k];
      }
  }

  lemma {:induction false} SortEmitsAncestorTargetsFirst(pending: seq<Customizer>, baseTypeCache: BaseTypeCache)
    ensures Sort(pending, baseTypeCache).Success? ==>
      AncestorTargetsFirst(Sort(pending, baseTypeCache).value, baseTypeCache)
    decreases |pending|
  {
    if |pending| > 0 {
      match FirstEmittableFrom(pending, baseTypeCache, 0)
      case None =>
      case Some(k) =>
        var x := pending[k];
        var after := baseTypeCache - {x.target};
        var rest := Sort(RemoveAt(pending, k), after);
        SortEmitsAncestorTargetsFirst(RemoveAt(pending, k), after);
        if rest.Success? {
          var out := [x] + rest.value;
          assert Sort(pending, baseTypeCache) == Success(out);
          forall i, a | 0 <= i < |out| && out[i].target in baseTypeCache &&
              a in baseTypeCache[out[i].target] && a in baseTypeCache
            ensures exists j :: 0 <= j < i && out[j].target == a
          {
            assert i > 0;
            if a == x.target {
              assert out[0].target == a;
            } else {
              assert out[i] == rest.value[i - 1];
              assert out[i].target != x.target;
              assert out[i].target in after && a in after && after[out[i].target] == baseTypeCache[out[i].target];
              var j :| 0 <= j < i - 1 && rest.value[j].target == a;
              assert out[j + 1].target == a;
            }
          }
        }
    }
  }

  lemma CoveredAfterEmit(pending: seq<Customizer>, baseTypeCache: BaseTypeCache, k: nat)
    requires k < |pending| && Covered(pending, baseTypeCache)
    ensures Covered(RemoveAt(pending, k), baseTypeCache - {pending[k].target})
  {
    var rest := RemoveAt(pending, k);
    forall t | t in baseTypeCache - {pending[k].target}
      ensures IsTargetOf(rest, t)
    {
      assert IsTargetOf(pending, t);
      var i :| 0 <= i < |pending| && pending[i].target == t;
      if i < k {
        assert rest[i] == pending[i];
      } else {
        assert i != k;
        assert rest[i - 1] == pending[i];
      }
    }
  }

  /** While a blocked set stays among the keys nothing targeting it can be emitted, so the
      sort fails. */
  lemma {:induction false} SortFailsOnBlockedSet(pending: seq<Customizer>, baseTypeCache: BaseTypeCache, s: set<Type>)
    requires Covered(pending, baseTypeCache) && BlockedSet(s, baseTypeCache)
    ensures Sort(pending, baseTypeCache).Failure?
    decreases |pending|
  {
    var t :| t in s;
    assert IsTargetOf(pending, t);
    assert |pending| > 0;
    match FirstEmittableFrom(pending, baseTypeCache, 0)
    case None =>
    case Some(k) =>
      var x := pending[k];
      assert x.target in s ==> HasCachedAncestorIn(baseTypeCache, x.target, s);
      assert x.target !in s;
      var after := baseTypeCache - {x.target};
      CoveredAfterEmit(pending, baseTypeCache, k);
      assert BlockedSet(s, after) by {
        forall u | u in s ensures HasCachedAncestorIn(after, u, s) {
          assert HasCachedAncestorIn(baseTypeCache, u, s);
          assert after[u] == baseTypeCache[u];
        }
      }
      SortFailsOnBlockedSet(RemoveAt(pending, k), after, s);
  }

  /** A failed sort leaves a blocked set behind: the keys still present when it stops. */
  lemma {:induction false} SortFailureHasBlockedSet(pending: seq<Customizer>, baseTypeCache: BaseTypeCache)
    requires Covered(pending, baseTypeCache)
    ensures Sort(pending, baseTypeCache).Failure? ==> exists s :: BlockedSet(s, baseTypeCache)
    decreases |pending|
  {
    if |pending| > 0 {
      match FirstEmittableFrom(pending, baseTypeCache, 0)
      case None =>
        assert HasBaseClass(pending[0], baseTypeCache);
        forall t | t in baseTypeCache.Keys
          ensures HasCachedAncestorIn(baseTypeCache, t, baseTypeCache.Keys)
        {
          assert IsTargetOf(pending, t);
          var i :| 0 <= i < |pending| && pending[i].target == t;
          assert HasBaseClass(pending[i], baseTypeCache);
        }
        assert BlockedSet(baseTypeCache.Keys, baseTypeCache);
      case Some(k) =>
        var after := baseTypeCache - {pending[k].target};
        CoveredAfterEmit(pending, baseTypeCache, k);
        SortFailureHasBlockedSet(RemoveAt(pending, k), after);
        if Sort(RemoveAt(pending, k), after).Failure? {
          var s :| BlockedSet(s, after);
          assert BlockedSet(s, baseTypeCache) by {
            forall u | u in s ensures HasCachedAncestorIn(baseTypeCache, u, s) {
              assert HasCachedAncestorIn(after, u, s);
              assert after[u] == baseTypeCache[u];
            }
          }
        }
    }
  }

  lemma RemoveAtKeepsDistinctTargets(pending: seq<Customizer>, k: nat)
    requires k < |pending| && DistinctTargets(pending)
    ensures DistinctTargets(RemoveAt(pending, k))
    ensures forall y :: y in RemoveAt(pending, k) ==> y.target != pending[k].target
  {
    var rest := RemoveAt(pending, k);
    forall i, j | 0 <= i < j < |rest| ensures rest[i].target != rest[j].target {
      var i', j' := if i < k then i else i + 1, if j < k then j else j + 1;
      assert rest[i] == pending[i'] && rest[j] == pending[j'];
    }
    forall y | y in rest ensures y.target != pending[k].target {
      var m :| 0 <= m < |rest| && rest[m] == y;
      var m' := if m < k then m else m + 1;
      assert rest[m] == pending[m'];
    }
  }

  lemma PrependKeepsDistinctTargets(x: Customizer, rest: seq<Customizer>)
    requires DistinctTargets(rest)
    requires forall y :: y in rest ==> y.target != x.target
    ensures DistinctTargets([x] + rest)
  {
    var whole := [x] + rest;
    forall i, j | 0 <= i < j < |whole| ensures whole[i].target != whole[j].target {
      assert whole[j] == rest[j - 1];
      if i > 0 {
        assert whole[i] == rest[i - 1];
      } else {
        assert rest[j - 1] in rest;
      }
    }
  }

  lemma {:induction false} SortKeepsDistinctTargets(pending: seq<Customizer>, baseTypeCache: BaseTypeCache)
    requires DistinctTargets(pending)
    ensures Sort(pending, baseTypeCache).Success? ==> DistinctTargets(Sort(pending, baseTypeCache).value)
    decreases |pending|
  {
    if |pending| > 0 {
      match FirstEmittableFrom(pending, baseTypeCache, 0)
      case None =>
      case Some(k) =>
        var x := pending[k];
        var rest := RemoveAt(pending, k);
        var after := baseTypeCache - {x.target};
        RemoveAtKeepsDistinctTargets(pending, k);
        SortKeepsDistinctTargets(rest, after);
        SortIsPermutation(rest, after);
        var out := Sort(rest, after);
        if out.Success? {
          assert forall y :: y in out.value ==> y in multiset(rest);
          PrependKeepsDistinctTargets(x, out.value);
        }
    }
  }

  // The properties for the sort as it is started: on every target of the pool, once.

  lemma InitialCacheCovered(pool: seq<Customizer>, ancestors: Type -> seq<Type>)
    ensures Covered(pool, InitialCache(pool, ancestors))
  {
    forall t | t in InitialCache(pool, ancestors)
      ensures IsTargetOf(pool, t)
    {
      var c :| c in pool && c.target == t;
      var i :| 0 <= i < |pool| && pool[i] == c;
    }
  }

  /** On the initial cache a blocked set is exactly an ancestor cycle among the pool's targets. */
  lemma BlockedSetIsAncestorCycle(pool: seq<Customizer>, ancestors: Type -> seq<Type>, s: set<Type>)
    ensures BlockedSet(s, InitialCache(pool, ancestors)) <==> s <= Targets(pool) && AncestorCycle(s, ancestors)
  {
    var cache := InitialCache(pool, ancestors);
    if BlockedSet(s, cache) {
      forall t | t in s ensures HasAncestorIn(ancestors, t, s) {
        assert HasCachedAncestorIn(cache, t, s);
        assert cache[t] == ancestors(t);
      }
    }
    if s <= Targets(pool) && AncestorCycle(s, ancestors) {
      forall t | t in s ensures HasCachedAncestorIn(cache, t, s) {
        assert HasAncestorIn(ancestors, t, s);
        assert cache[t] == ancestors(t);
      }
    }
  }

  /** The sort of a pool fails exactly when some of the pool's targets form an ancestor cycle. */
  lemma SortFailsIffAncestorCycle(pool: seq<Customizer>, ancestors: Type -> seq<Type>)
    ensures Sort(pool, InitialCache(pool, ancestors)).Failure? <==>
      exists s :: s <= Targets(pool) && AncestorCycle(s, ancestors)
  {
    var cache := InitialCache(pool, ancestors);
    InitialCacheCovered(pool, ancestors);
    if Sort(pool, cache).Failure? {
      SortFailureHasBlockedSet(pool, cache);
      var s :| BlockedSet(s, cache);
      BlockedSetIsAncestorCycle(pool, ancestors, s);
    }
    if s :| s <= Targets(pool) && AncestorCycle(s, ancestors) {
      BlockedSetIsAncestorCycle(pool, ancestors, s);
      SortFailsOnBlockedSet(pool, cache, s);
    }
  }

  /** Two customizers whose targets list each other as ancestors make the sort fail. */
  lemma MutualAncestorsFail(pool: seq<Customizer>, ancestors: Type -> seq<Type>, i: nat, j: nat)
    requires i < |pool| && j < |pool|
    requires pool[i].target in ancestors(pool[j].target)
    requires pool[j].target in ancestors(pool[i].target)
    ensures Sort(pool, InitialCache(pool, ancestors)) == Failure(ProgrammingError(UnableToSortMessage))
  {
    var s := {pool[i].target, pool[j].target};
    assert HasAncestorIn(ancestors, pool[i].target, s);
    assert HasAncestorIn(ancestors, pool[j].target, s);
    assert s <= Targets(pool) && AncestorCycle(s, ancestors);
    SortFailsIffAncestorCycle(pool, ancestors);
    SortFailureMessage(pool, InitialCache(pool, ancestors));
  }

  /** After a successful sort, each ancestor of an emitted customizer's target that is itself
      a target of the pool is the target of some customizer emitted before it. */
  lemma SortedAncestorsComeFirst(pool: seq<Customizer>, ancestors: Type -> seq<Type>)
    ensures Sort(pool, InitialCache(pool, ancestors)).Success? ==>
      var out := Sort(pool, InitialCache(pool, ancestors)).value;
      forall i, a :: 0 <= i < |out| && a in ancestors(out[i].target) && a in Targets(pool) ==>
        exists j :: 0 <= j < i && out[j].target == a
  {
    var cache := InitialCache(pool, ancestors);
    if Sort(pool, cache).Success? {
      var out := Sort(pool, cache).value;
      SortIsPermutation(pool, cache);
      SortEmitsAncestorTargetsFirst(pool, cache);
      forall i, a | 0 <= i < |out| && a in ancestors(out[i].target) && a in Targets(pool)
        ensures exists j :: 0 <= j < i && out[j].target == a
      {
        assert out[i] in multiset(pool);
        assert out[i].target in cache;
      }
    }
  }

  /** Some earlier customizer for every ancestor target, with distinct targets, means the
      one customizer for that ancestor is earlier. */
  lemma DistinctAncestorsPrecede(out: seq<Customizer>, targets: set<Type>, ancestors: Type -> seq<Type>)
    requires DistinctTargets(out)
    requires forall i :: 0 <= i < |out| ==> out[i].target in targets
    requires forall i, a :: 0 <= i < |out| && a in ancestors(out[i].target) && a in targets ==>
      exists j :: 0 <= j < i && out[j].target == a
    ensures forall i, j :: 0 <= i < |out| && 0 <= j < |out| && out[j].target in ancestors(out[i].target) ==> j < i
  {
    forall i, j | 0 <= i < |out| && 0 <= j < |out| && out[j].target in ancestors(out[i].target)
      ensures j < i
    {
      var k :| 0 <= k < i && out[k].target == out[j].target;
      assert k == j;
    }
  }

  /** With pairwise distinct targets, a customizer whose target is an ancestor of another
      customizer's target is emitted strictly before it. */
  lemma SortedAncestorsPrecede(pool: seq<Customizer>, ancestors: Type -> seq<Type>)
    requires DistinctTargets(pool)
    ensures Sort(pool, InitialCache(pool, ancestors)).Success? ==>
      var out := Sort(pool, InitialCache(pool, ancestors)).value;
      forall i, j :: 0 <= i < |out| && 0 <= j < |out| && out[j].target in ancestors(out[i].target) ==> j < i
  {
    var cache := InitialCache(pool, ancestors);
    if Sort(pool, cache).Success? {
      var out := Sort(pool, cache).value;
      SortedAncestorsComeFirst(pool, ancestors);
      SortKeepsDistinctTargets(pool, cache);
      SortIsPermutation(pool, cache);
      forall i | 0 <= i < |out| ensures out[i].target in Targets(pool) {
        assert out[i] in multiset(pool);
      }
      DistinctAncestorsPrecede(out, Targets(pool), ancestors);
    }
  }
}
