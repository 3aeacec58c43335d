/** The mapper itself: the order in which mapping types are handed to the engine, the
    classification cache it owns, and the defaults it stamps on the compiled document. */
module ModelMapping {
  import opened Wrappers
  import opened Types
  import opened MarkerWalk
  import opened Classification
  import opened ClassificationCache
  import opened TopologicalSort
  import opened SortProperties

  /** The overridable properties of a mapper: MappingTypes, DefaultAccess, DefaultLazy and
      DefaultCascade. None stands for null. */
  datatype MapperConfig = MapperConfig(
    mappingTypes: Option<seq<Type>>,
    defaultAccess: Option<string>,
    defaultLazy: bool,
    defaultCascade: Option<string>)

  /** The values of those properties when a mapper does not override them. */
  const DefaultConfig := MapperConfig(None, None, true, None)

  /** The characters System.Char.IsWhiteSpace accepts: the Unicode space, line and paragraph
      separators and the controls U+0009 to U+000D and U+0085. */
  predicate IsWhiteSpace(ch: char) {
    ('\t' <= ch <= '\r') || ch == ' ' || ch == '\U{0085}' || ch == '\U{00A0}' || ch == '\U{1680}' ||
    ('\U{2000}' <= ch <= '\U{200A}') || ch == '\U{2028}' || ch == '\U{2029}' ||
    ch == '\U{202F}' || ch == '\U{205F}' || ch == '\U{3000}'
  }

  predicate IsNullOrWhiteSpace(s: Option<string>) {
    s.None? || forall i :: 0 <= i < |s.value| ==> IsWhiteSpace(s.value[i])
  }

  /** A mapper left at its defaults orders the catalogue itself, switches lazy loading on,
      and stamps neither an access nor a cascade value. */
  lemma DefaultConfigStampsOnlyLazy()
    ensures DefaultConfig.mappingTypes.None? && DefaultConfig.defaultLazy
    ensures DefaultConfig.defaultAccess.None? && DefaultConfig.defaultCascade.None?
    ensures IsNullOrWhiteSpace(DefaultConfig.defaultAccess) && IsNullOrWhiteSpace(DefaultConfig.defaultCascade)
  {
  }

  /** The order in which the catalogue's mapping types are added to the engine: class and
      component customizers first, then the sorted subclass customizers; or the sort's failure. */
  function SortMappings(types: seq<Type>, ancestors: Type -> seq<Type>): Result<seq<Type>, MappingError> {
    var pool := SubclassPool(types);
    var sorted := Sort(pool, InitialCache(pool, ancestors));
    if sorted.Failure? then Failure(sorted.error)
    else Success(GetClassOrComponentCustomizers(types) + Definitions(sorted.value))
  }

  lemma {:induction false} DefinitionsOfRemoveAt(s: seq<Customizer>, k: nat)
    requires k < |s|
    ensures multiset(Definitions(RemoveAt(s, k))) + multiset{s[k].definition} == multiset(Definitions(s))
    decreases k
  {
    var r, d := RemoveAt(s, k), s[0].definition;
    if k == 0 {
      assert r == s[1..];
    } else {
      var r' := RemoveAt(s[1..], k - 1);
      assert r == [s[0]] + r';
      DefinitionsOfRemoveAt(s[1..], k - 1);
      calc {
        multiset(Definitions(r)) + multiset{s[k].definition};
        multiset([d] + Definitions(r')) + multiset{s[1..][k - 1].definition};
        multiset{d} + (multiset(Definitions(r')) + multiset{s[1..][k - 1].definition});
        multiset{d} + multiset(Definitions(s[1..]));
        multiset([d] + Definitions(s[1..]));
      }
    }
  }

  /** Permuting customizers permutes their definitions. */
  lemma {:induction false} DefinitionsOfPermutation(a: seq<Customizer>, b: seq<Customizer>)
    requires multiset(a) == multiset(b)
    ensures multiset(Definitions(a)) == multiset(Definitions(b))
    decreases |a|
  {
    if |a| == 0 {
      assert b == [];
    } else {
      assert a[0] in multiset(b);
      var k :| 0 <= k < |b| && b[k] == a[0];
      var b' := RemoveAt(b, k);
      assert multiset(a[1..]) == multiset(b') by {
        assert a == [a[0]] + a[1..];
        assert multiset(a[1..]) == multiset(a) - multiset{a[0]};
        assert multiset(b') == multiset(b) - multiset{a[0]};
      }
      DefinitionsOfPermutation(a[1..], b');
      DefinitionsOfRemoveAt(b, k);
      assert Definitions(a) == [a[0].definition] + Definitions(a[1..]);
    }
  }

  /** A successful ordering holds the class and component customizers first, in catalogue
      order, and then each subclass, joined-subclass and union-subclass customizer exactly once. */
  lemma SortMappingsOrder(types: seq<Type>, ancestors: Type -> seq<Type>)
    ensures SortMappings(types, ancestors).Success? ==>
      var r := SortMappings(types, ancestors).value;
      var classes := GetClassOrComponentCustomizers(types);
      |classes| <= |r| && r[..|classes|] == classes &&
      multiset(r[|classes|..]) == multiset(FilterMarked(types, SubclassCustomizer) +
        FilterMarked(types, JoinedSubclassCustomizer) + FilterMarked(types, UnionSubclassCustomizer))
  {
    var pool := SubclassPool(types);
    var sorted := Sort(pool, InitialCache(pool, ancestors));
    if sorted.Success? {
      var classes := GetClassOrComponentCustomizers(types);
      var r := classes + Definitions(sorted.value);
      SortedPoolDefinitions(types, ancestors);
      assert r[..|classes|] == classes && r[|classes|..] == Definitions(sorted.value);
    }
  }

  /** The definitions of a sorted pool are the three filtered groups, in some order. */
  lemma SortedPoolDefinitions(types: seq<Type>, ancestors: Type -> seq<Type>)
    requires Sort(SubclassPool(types), InitialCache(SubclassPool(types), ancestors)).Success?
    ensures multiset(Definitions(Sort(SubclassPool(types), InitialCache(SubclassPool(types), ancestors)).value)) ==
      multiset(FilterMarked(types, SubclassCustomizer) +
        FilterMarked(types, JoinedSubclassCustomizer) + FilterMarked(types, UnionSubclassCustomizer))
  {
    var pool := SubclassPool(types);
    var sorted := Sort(pool, InitialCache(pool, ancestors));
    SortIsPermutation(pool, InitialCache(pool, ancestors));
    DefinitionsOfPermutation(sorted.value, pool);
  }

  /** A customizer in the subclass pool comes from the catalogue and matches a marker. */
  lemma PoolMemberIsCustomizer(types: seq<Type>, c: Customizer)
    requires c in SubclassPool(types)
    ensures c.definition in types && exists m :: IsSubclassOfOpenGeneric(c.definition, m)
  {
    assert IsSubclassTarget(c);
    assert IsSubclassOfOpenGeneric(c.definition, SubclassCustomizer) ||
      IsSubclassOfOpenGeneric(c.definition, JoinedSubclassCustomizer) ||
      IsSubclassOfOpenGeneric(c.definition, UnionSubclassCustomizer);
  }

  /** Every type in a successful ordering comes from the catalogue and matches at least one
      of the five markers: types that match none are dropped. */
  lemma SortMappingsKeepsOnlyCustomizers(types: seq<Type>, ancestors: Type -> seq<Type>)
    ensures SortMappings(types, ancestors).Success? ==>
      forall t :: t in SortMappings(types, ancestors).value ==>
        t in types && exists m :: IsSubclassOfOpenGeneric(t, m)
  {
    var pool := SubclassPool(types);
    var sorted := Sort(pool, InitialCache(pool, ancestors));
    if sorted.Success? {
      var classes := GetClassOrComponentCustomizers(types);
      var defs := Definitions(sorted.value);
      SortIsPermutation(pool, InitialCache(pool, ancestors));
      forall t | t in classes + defs ensures t in types && exists m :: IsSubclassOfOpenGeneric(t, m) {
        if t in classes {
          assert IsClassCustomizer(t) || IsComponentCustomizer(t);
        } else {
          var i :| 0 <= i < |defs| && defs[i] == t;
          DefinitionAt(sorted.value, i);
          assert sorted.value[i] in multiset(pool);
          PoolMemberIsCustomizer(types, sorted.value[i]);
        }
      }
    }
  }

  /** The ordering fails, always with the one ProgrammingError message, exactly when the
      targets of the subclass customizers contain an ancestor cycle. */
  lemma SortMappingsFailsIffAncestorCycle(types: seq<Type>, ancestors: Type -> seq<Type>)
    ensures SortMappings(types, ancestors).Failure? <==>
      exists s :: s <= Targets(SubclassPool(types)) && AncestorCycle(s, ancestors)
    ensures SortMappings(types, ancestors).Failure? ==>
      SortMappings(types, ancestors).error == ProgrammingError(UnableToSortMessage)
  {
    var pool := SubclassPool(types);
    SortFailsIffAncestorCycle(pool, ancestors);
    SortFailureMessage(pool, InitialCache(pool, ancestors));
  }

  /** An empty catalogue orders to nothing. */
  lemma SortMappingsOfEmptyCatalogue(ancestors: Type -> seq<Type>)
    ensures SortMappings([], ancestors) == Success([])
  {
    assert SubclassPool([]) == [];
  }

  /** The engine's defaults on a compiled document, before the mapper stamps its own. */
  datatype MappingDefaults = MappingDefaults(lazy: bool, access: Option<string>, cascade: Option<string>)

  /** The compiled mapping document; only the mapping order and the three defaults are modelled. */
  class HbmMapping {
    const mappings: seq<Type>
    var defaultlazy: bool
    var defaultaccess: Option<string>
    var defaultcascade: Option<string>

    /** Stands for the engine's compilation of the added mapping types. */
    constructor Compile(mappings: seq<Type>, engine: MappingDefaults)
      ensures this.mappings == mappings
      ensures defaultlazy == engine.lazy && defaultaccess == engine.access && defaultcascade == engine.cascade
    {
      this.mappings := mappings;
      defaultlazy := engine.lazy;
      defaultaccess := engine.access;
      defaultcascade := engine.cascade;
    }
  }

  class ModelMapperBase {
    const config: MapperConfig
    var classCustomizersCache: Cache
    /** The number of uncached walks performed so far. */
    ghost var walks: nat

    ghost predicate Valid()
      reads this
    {
      CacheSound(classCustomizersCache)
    }

    constructor (config: MapperConfig)
      ensures Valid() && this.config == config
      ensures classCustomizersCache == map[] && walks == 0
    {
      this.config := config;
      classCustomizersCache := map[];
      walks := 0;
    }

    /** The cached walk: answers from the cache when (toCheck, generic) is there, otherwise
        walks and records the answer, a negative one too. */
    method GetFirstTypeArgumentOfOpenGeneric(toCheck: Type, generic: Marker) returns (r: Option<Type>)
      requires Valid()
      modifies this
      ensures Valid()
      ensures r == FirstTypeArgument(Some(toCheck), generic)
      ensures classCustomizersCache == CacheAfter(old(classCustomizersCache), toCheck, generic)
      ensures walks == if old(IsCached(classCustomizersCache, toCheck, generic)) then old(walks) else old(walks) + 1
    {
      if toCheck !in classCustomizersCache {
        r := GetFirstTypeArgumentOfOpenGenericInternal(toCheck, generic);
        walks := walks + 1;
        classCustomizersCache := classCustomizersCache[toCheck := map[generic := r]];
      } else {
        var dictionary := classCustomizersCache[toCheck];
        if generic !in dictionary {
          r := GetFirstTypeArgumentOfOpenGenericInternal(toCheck, generic);
          walks := walks + 1;
          classCustomizersCache := classCustomizersCache[toCheck := dictionary[generic := r]];
        } else {
          r := dictionary[generic];
        }
      }
    }

    method IsSubclassOfOpenGeneric(toCheck: Type, generic: Marker) returns (b: bool)
      requires Valid()
      modifies this
      ensures Valid()
      ensures b == Classification.IsSubclassOfOpenGeneric(toCheck, generic)
      ensures classCustomizersCache == CacheAfter(old(classCustomizersCache), toCheck, generic)
      ensures walks == if old(IsCached(classCustomizersCache, toCheck, generic)) then old(walks) else old(walks) + 1
    {
      var firstTypeArgument := GetFirstTypeArgumentOfOpenGeneric(toCheck, generic);
      b := firstTypeArgument.Some?;
    }

    /** Orders the catalogue (unless MappingTypes overrides it), compiles it with the engine
        and stamps the configured defaults on the result. */
    method GetHbmMapping(catalogue: seq<Type>, ancestors: Type -> seq<Type>, engine: MappingDefaults)
      returns (r: Result<HbmMapping, MappingError>)
      ensures config.mappingTypes.Some? ==> r.Success? && r.value.mappings == config.mappingTypes.value
      ensures config.mappingTypes.None? ==> (r.Success? <==> SortMappings(catalogue, ancestors).Success?)
      ensures config.mappingTypes.None? && r.Success? ==> r.value.mappings == SortMappings(catalogue, ancestors).value
      ensures r.Failure? ==> r.error == ProgrammingError(UnableToSortMessage)
      ensures r.Success? ==> fresh(r.value)
      ensures r.Success? ==> r.value.defaultlazy == config.defaultLazy
      ensures r.Success? ==>
        r.value.defaultaccess == (if IsNullOrWhiteSpace(config.defaultAccess) then engine.access else config.defaultAccess)
      ensures r.Success? ==>
        r.value.defaultcascade == (if IsNullOrWhiteSpace(config.defaultCascade) then engine.cascade else config.defaultCascade)
    {
      var mappingTypes: seq<Type>;
      if config.mappingTypes.Some? {
        mappingTypes := config.mappingTypes.value;
      } else {
        var subclasses := GetSubClassCustomizers(catalogue, ancestors);
        if subclasses.Failure? {
          return Failure(subclasses.error);
        }
        mappingTypes := GetClassOrComponentCustomizers(catalogue) + subclasses.value;
      }
      var hbmMapping := new HbmMapping.Compile(mappingTypes, engine);
      hbmMapping.defaultlazy := config.defaultLazy;
      if !IsNullOrWhiteSpace(config.defaultAccess) {
        hbmMapping.defaultaccess := config.defaultAccess;
      }
      if !IsNullOrWhiteSpace(config.defaultCascade) {
        hbmMapping.defaultcascade := config.defaultCascade;
      }
      return Success(hbmMapping);
    }
  }
}
