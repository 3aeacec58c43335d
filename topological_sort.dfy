/** The ordering of subclass-flavoured customizers so that a customizer for a base type is
    applied before one for a derived type. */
module TopologicalSort {
  import opened Wrappers
  import opened Types
  import opened Classification

  /** The ancestor lists computed once per sort, keyed by target domain type. A key is
      removed as soon as some customizer for that target has been emitted. */
  type BaseTypeCache = map<Type, seq<Type>>

  function TargetList(cs: seq<Customizer>): (r: seq<Type>)
    ensures |r| == |cs|
    ensures forall i :: 0 <= i < |cs| ==> r[i] == cs[i].target
  {
    if |cs| == 0 then [] else [cs[0].target] + TargetList(cs[1..])
  }

  function Targets(cs: seq<Customizer>): set<Type> {
    set c | c in cs :: c.target
  }

  /** The cache built for a pending list: every target, once, with its ancestors. */
  function InitialCache(pool: seq<Customizer>, ancestors: Type -> seq<Type>): BaseTypeCache {
    map t | t in Targets(pool) :: ancestors(t)
  }

  /** Builds the base-type cache for the distinct types of `types`. */
  method CalcBaseTypes(types: seq<Type>, ancestors: Type -> seq<Type>) returns (result: BaseTypeCache)
    ensures result.Keys == set t | t in types
    ensures forall t :: t in result ==> result[t] == ancestors(t)
  {
    result := map[];
    var i := 0;
    while i < |types|
      invariant 0 <= i <= |types|
      invariant result.Keys == set t | t in types[..i]
      invariant forall t :: t in result ==> result[t] == ancestors(t)
    {
      assert types[..i + 1] == types[..i] + [types[i]];
      if types[i] !in result {
        result := result[types[i] := ancestors(types[i])];
      }
      i := i + 1;
    }
    assert types[..i] == types;
  }

  /** The customizer is held back: its target still has a cache entry and one of the
      target's ancestors is still a key of the cache. */
  predicate HasBaseClass(c: Customizer, baseTypeCache: BaseTypeCache) {
    c.target in baseTypeCache && exists a :: a in baseTypeCache[c.target] && a in baseTypeCache
  }

  /** The lowest index at or after `from` whose customizer is not held back. */
  function FirstEmittableFrom(pending: seq<Customizer>, baseTypeCache: BaseTypeCache, from: nat): (r: Option<nat>)
    requires from <= |pending|
    decreases |pending| - from
    ensures r.Some? ==> from <= r.value < |pending| && !HasBaseClass(pending[r.value], baseTypeCache)
    ensures r.Some? ==> forall j :: from <= j < r.value ==> HasBaseClass(pending[j], baseTypeCache)
    ensures r.None? ==> forall j :: from <= j < |pending| ==> HasBaseClass(pending[j], baseTypeCache)
  {
    if from == |pending| then None
    else if !HasBaseClass(pending[from], baseTypeCache) then Some(from)
    else FirstEmittableFrom(pending, baseTypeCache, from + 1)
  }

  function RemoveAt(s: seq<Customizer>, i: nat): (r: seq<Customizer>)
    requires i < |s|
    ensures |r| == |s| - 1
    ensures forall j :: 0 <= j < i ==> r[j] == s[j]
    ensures forall j :: i <= j < |r| ==> r[j] == s[j + 1]
    ensures multiset(r) + multiset{s[i]} == multiset(s)
  {
    assert s == s[..i] + [s[i]] + s[i + 1..];
    s[..i] + s[i + 1..]
  }

  /** `r` with `emitted` in front, or the failure `r` already is. */
  function Join(emitted: seq<Customizer>, r: Result<seq<Customizer>, MappingError>): Result<seq<Customizer>, MappingError> {
    if r.Failure? then r else Success(emitted + r.value)
  }

  /** The specification of the sort: emit the lowest-index customizer that is not held
      back, drop its target from the cache, and go on with the rest; fail when every
      remaining customizer is held back. */
  function Sort(pending: seq<Customizer>, baseTypeCache: BaseTypeCache): Result<seq<Customizer>, MappingError>
    decreases |pending|
  {
    if |pending| == 0 then Success([])
    else match FirstEmittableFrom(pending, baseTypeCache, 0)
      case None => Failure(ProgrammingError(UnableToSortMessage))
      case Some(i) => Join([pending[i]], Sort(RemoveAt(pending, i), baseTypeCache - {pending[i].target}))
  }

  /** Every failure of the sort carries the one message the source throws. */
  lemma {:induction false} SortFailureMessage(pending: seq<Customizer>, baseTypeCache: BaseTypeCache)
    ensures Sort(pending, baseTypeCache).Failure? ==>
      Sort(pending, baseTypeCache).error == ProgrammingError(UnableToSortMessage)
    decreases |pending|
  {
    if |pending| > 0 {
      match FirstEmittableFrom(pending, baseTypeCache, 0)
      case None =>
      case Some(i) => SortFailureMessage(RemoveAt(pending, i), baseTypeCache - {pending[i].target});
    }
  }

  function DefinitionsOf(r: Result<seq<Customizer>, MappingError>): Result<seq<Type>, MappingError> {
    if r.Failure? then Failure(r.error) else Success(Definitions(r.value))
  }

  /** Emitting the customizer at `idx`, when every earlier one is held back and it is not,
      is the first step of the sort. */
  lemma EmitStep(emitted: seq<Customizer>, pending: seq<Customizer>, baseTypeCache: BaseTypeCache, idx: nat)
    requires idx < |pending|
    requires forall j :: 0 <= j < idx ==> HasBaseClass(pending[j], baseTypeCache)
    requires !HasBaseClass(pending[idx], baseTypeCache)
    ensures Join(emitted, Sort(pending, baseTypeCache)) ==
      Join(emitted + [pending[idx]], Sort(RemoveAt(pending, idx), baseTypeCache - {pending[idx].target}))
  {
    assert FirstEmittableFrom(pending, baseTypeCache, 0) == Some(idx);
    var rest := Sort(RemoveAt(pending, idx), baseTypeCache - {pending[idx].target});
    if rest.Success? {
      assert emitted + ([pending[idx]] + rest.value) == (emitted + [pending[idx]]) + rest.value;
    }
  }

  /** The scan that finds every customizer held back is the sort's failure. */
  lemma StuckStep(emitted: seq<Customizer>, pending: seq<Customizer>, baseTypeCache: BaseTypeCache)
    requires |pending| > 0
    requires forall j :: 0 <= j < |pending| ==> HasBaseClass(pending[j], baseTypeCache)
    ensures Join(emitted, Sort(pending, baseTypeCache)) == Failure(ProgrammingError(UnableToSortMessage))
  {
    assert FirstEmittableFrom(pending, baseTypeCache, 0).None?;
  }

  /** The constructed cache is the one the specification starts from. */
  lemma CalcBaseTypesIsInitialCache(pool: seq<Customizer>, ancestors: Type -> seq<Type>, cache: BaseTypeCache)
    requires cache.Keys == set t | t in TargetList(pool)
    requires forall t :: t in cache ==> cache[t] == ancestors(t)
    ensures cache == InitialCache(pool, ancestors)
  {
    forall t ensures t in cache <==> t in Targets(pool) {
      if t in Targets(pool) {
        var c :| c in pool && c.target == t;
        var k :| 0 <= k < |pool| && pool[k] == c;
        assert TargetList(pool)[k] == t;
      }
    }
  }

  /** The sort loop of GetSubClassCustomizers over the pooled customizers: scan from `idx`,
      emit the first customizer not held back, remove its target key and its list entry,
      restart at 0; stop when the list is empty or the scan reaches its end. */
  method SortCustomizers(pool: seq<Customizer>, ancestors: Type -> seq<Type>)
    returns (r: Result<seq<Customizer>, MappingError>)
    ensures r == Sort(pool, InitialCache(pool, ancestors))
  {
    var customizers := pool;
    var baseTypeCache := CalcBaseTypes(TargetList(pool), ancestors);
    CalcBaseTypesIsInitialCache(pool, ancestors, baseTypeCache);
    ghost var initial := baseTypeCache;
    var emitted: seq<Customizer> := [];
    if Sort(pool, initial).Success? {
      assert [] + Sort(pool, initial).value == Sort(pool, initial).value;
    }
    var idx := 0;
    while |customizers| > 0 && idx < |customizers|
      invariant 0 <= idx <= |customizers|
      invariant forall j :: 0 <= j < idx ==> HasBaseClass(customizers[j], baseTypeCache)
      invariant Sort(pool, initial) == Join(emitted, Sort(customizers, baseTypeCache))
      decreases |customizers|, |customizers| - idx
    {
      var customizer := customizers[idx];
      var hasBaseClass := HasBaseClass(customizer, baseTypeCache);
      if !hasBaseClass {
        EmitStep(emitted, customizers, baseTypeCache, idx);
        emitted := emitted + [customizer];
        baseTypeCache := baseTypeCache - {customizer.target};
        customizers := RemoveAt(customizers, idx);
        idx := 0;
      } else {
        idx := idx + 1;
      }
    }
    if |customizers| > 0 {
      StuckStep(emitted, customizers, baseTypeCache);
      return Failure(ProgrammingError(UnableToSortMessage));
    }
    assert emitted + [] == emitted;
    return Success(emitted);
  }

  /** The sorted subclass customizers of the catalogue, or the sort's failure. */
  method GetSubClassCustomizers(mappingTypes: seq<Type>, ancestors: Type -> seq<Type>)
    returns (r: Result<seq<Type>, MappingError>)
    ensures r == DefinitionsOf(Sort(SubclassPool(mappingTypes), InitialCache(SubclassPool(mappingTypes), ancestors)))
    ensures r.Failure? ==> r.error == ProgrammingError(UnableToSortMessage)
  {
    var pool := SubclassPool(mappingTypes);
    var sorted := SortCustomizers(pool, ancestors);
    SortFailureMessage(pool, InitialCache(pool, ancestors));
    if sorted.Failure? {
      return Failure(sorted.error);
    }
    return Success(Definitions(sorted.value));
  }
}
