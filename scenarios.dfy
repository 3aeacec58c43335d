/** Small concrete catalogues worked through the model: a three-level hierarchy supplied
    in reverse, two customizers for the same target, a mutual-ancestor pair, and a mapper
    whose configuration sets the defaults. */
module Scenarios {
  import opened Wrappers
  import opened Types
  import opened MarkerWalk
  import opened Classification
  import opened ClassificationCache
  import opened TopologicalSort
  import opened SortProperties
  import opened ModelMapping

  /** The base types of a type, nearest first, up to but not including System.Object. */
  function BaseTypes(t: Type): seq<Type> {
    Chain(t.baseType)
  }

  /** Domain types T1, T2 deriving from T1, and T3 deriving from T2. */
  const T1 := Type(Declared(1), [], Some(ObjectType))
  const T2 := Type(Declared(2), [], Some(T1))
  const T3 := Type(Declared(3), [], Some(T2))

  /** A mapping class deriving directly from `marker<target>`. */
  function Mapping(id: nat, marker: Marker, target: Type): Type {
    Type(Declared(id), [], Some(Type(OpenGeneric(marker), [target], Some(ObjectType))))
  }

  const D1 := Mapping(11, SubclassCustomizer, T1)
  const D2 := Mapping(12, SubclassCustomizer, T2)
  const D3 := Mapping(13, SubclassCustomizer, T3)

  lemma BaseTypesOfHierarchy()
    ensures BaseTypes(T1) == [] && BaseTypes(T2) == [T1] && BaseTypes(T3) == [T2, T1]
  {
    assert Chain(Some(ObjectType)) == [];
    assert Chain(Some(T1)) == [T1];
    assert Chain(Some(T2)) == [T2, T1];
  }

  /** Each mapping class matches exactly its own marker, naming its target. */
  lemma MappingMarkers(id: nat, marker: Marker, target: Type, other: Marker)
    requires other != marker
    ensures FirstTypeArgument(Some(Mapping(id, marker, target)), marker) == Some(target)
    ensures FirstTypeArgument(Some(Mapping(id, marker, target)), other) == None
  {
    assert FirstTypeArgument(Some(ObjectType), other) == None;
  }

  /** A catalogue in which no type matches `m` has no customizers for `m`. */
  lemma {:induction false} Unmarked(types: seq<Type>, m: Marker)
    requires forall i :: 0 <= i < |types| ==> FirstTypeArgument(Some(types[i]), m) == None
    ensures FilterMarked(types, m) == [] && CustomizersOf(types, m) == []
  {
    if |types| > 0 {
      Unmarked(types[1..], m);
    }
  }

  const C1 := Customizer(D1, T1)
  const C2 := Customizer(D2, T2)
  const C3 := Customizer(D3, T3)

  /** A catalogue with no class or component customizer contributes nothing to the first group. */
  lemma {:induction false} NoClassOrComponent(types: seq<Type>)
    requires forall i :: 0 <= i < |types| ==> !IsClassOrComponentCustomizer(types[i])
    ensures GetClassOrComponentCustomizers(types) == []
  {
    if |types| > 0 {
      NoClassOrComponent(types[1..]);
    }
  }

  lemma HierarchyIsNotClassOrComponent()
    ensures GetClassOrComponentCustomizers([D3, D2, D1]) == []
  {
    MappingMarkers(13, SubclassCustomizer, T3, ClassCustomizer);
    MappingMarkers(12, SubclassCustomizer, T2, ClassCustomizer);
    MappingMarkers(11, SubclassCustomizer, T1, ClassCustomizer);
    MappingMarkers(13, SubclassCustomizer, T3, ComponentCustomizer);
    MappingMarkers(12, SubclassCustomizer, T2, ComponentCustomizer);
    MappingMarkers(11, SubclassCustomizer, T1, ComponentCustomizer);
    NoClassOrComponent([D3, D2, D1]);
  }

  lemma HierarchySubclassCustomizers()
    ensures CustomizersOf([D3, D2, D1], SubclassCustomizer) == [C3, C2, C1]
  {
    MappingMarkers(13, SubclassCustomizer, T3, ClassCustomizer);
    MappingMarkers(12, SubclassCustomizer, T2, ClassCustomizer);
    MappingMarkers(11, SubclassCustomizer, T1, ClassCustomizer);
    assert [D3, D2, D1][1..] == [D2, D1] && [D2, D1][1..] == [D1] && [D1][1..] == [];
    assert CustomizersOf([D1], SubclassCustomizer) == [C1];
    assert CustomizersOf([D2, D1], SubclassCustomizer) == [C2, C1];
  }

  lemma HierarchyHasNo(m: Marker)
    requires m != SubclassCustomizer
    ensures CustomizersOf([D3, D2, D1], m) == []
  {
    MappingMarkers(13, SubclassCustomizer, T3, m);
    MappingMarkers(12, SubclassCustomizer, T2, m);
    MappingMarkers(11, SubclassCustomizer, T1, m);
    Unmarked([D3, D2, D1], m);
  }

  lemma HierarchyPool()
    ensures SubclassPool([D3, D2, D1]) == [C3, C2, C1]
  {
    HierarchyHasNo(JoinedSubclassCustomizer);
    HierarchyHasNo(UnionSubclassCustomizer);
    HierarchySubclassCustomizers();
    assert [C3, C2, C1] + [] + [] == [C3, C2, C1];
  }

  lemma HierarchyDefinitions()
    ensures Definitions([C1, C2, C3]) == [D1, D2, D3]
  {
    assert [C1, C2, C3][1..] == [C2, C3] && [C2, C3][1..] == [C3] && [C3][1..] == [];
    assert Definitions([C3]) == [D3];
    assert Definitions([C2, C3]) == [D2, D3];
  }

  lemma HierarchyCache()
    ensures InitialCache([C3, C2, C1], BaseTypes) == map[T1 := [], T2 := [T1], T3 := [T2, T1]]
  {
    BaseTypesOfHierarchy();
    assert Targets([C3, C2, C1]) == {T1, T2, T3};
  }

  lemma LastStep()
    ensures Sort([C3], map[T3 := [T2, T1]]) == Success([C3])
  {
    assert !HasBaseClass(C3, map[T3 := [T2, T1]]);
    assert FirstEmittableFrom([C3], map[T3 := [T2, T1]], 0) == Some(0);
    assert RemoveAt([C3], 0) == [];
    var rest := Sort(RemoveAt([C3], 0), map[T3 := [T2, T1]] - {T3});
    assert rest == Success([]);
    assert Sort([C3], map[T3 := [T2, T1]]) == Join([C3], rest);
    assert [C3] + [] == [C3];
  }

  lemma MiddleStep()
    ensures Sort([C3, C2], map[T2 := [T1], T3 := [T2, T1]]) == Success([C2, C3])
  {
    var cache := map[T2 := [T1], T3 := [T2, T1]];
    assert T2 in cache[T3];
    assert HasBaseClass(C3, cache) && !HasBaseClass(C2, cache);
    assert FirstEmittableFrom([C3, C2], cache, 1) == Some(1);
    assert FirstEmittableFrom([C3, C2], cache, 0) == Some(1);
    assert RemoveAt([C3, C2], 1) == [C3];
    assert cache - {T2} == map[T3 := [T2, T1]];
    LastStep();
    assert [C2] + [C3] == [C2, C3];
  }

  lemma FirstScan()
    ensures FirstEmittableFrom([C3, C2, C1], map[T1 := [], T2 := [T1], T3 := [T2, T1]], 0) == Some(2)
  {
    var cache := map[T1 := [], T2 := [T1], T3 := [T2, T1]];
    assert T2 in cache[T3] && T1 in cache[T2];
    assert HasBaseClass(C3, cache) && HasBaseClass(C2, cache) && !HasBaseClass(C1, cache);
    assert FirstEmittableFrom([C3, C2, C1], cache, 2) == Some(2);
    assert FirstEmittableFrom([C3, C2, C1], cache, 1) == Some(2);
  }

  /** Proof step of `FirstStep`: the cache and the list after emitting C1. */
  lemma FirstRemoval()
    ensures map[T1 := [], T2 := [T1], T3 := [T2, T1]] - {T1} == map[T2 := [T1], T3 := [T2, T1]]
    ensures RemoveAt([C3, C2, C1], 2) == [C3, C2]
  {
  }

  lemma FirstStep()
    ensures Sort([C3, C2, C1], map[T1 := [], T2 := [T1], T3 := [T2, T1]]) == Success([C1, C2, C3])
  {
    var cache := map[T1 := [], T2 := [T1], T3 := [T2, T1]];
    FirstScan();
    FirstRemoval();
    MiddleStep();
    assert [C1] + [C2, C3] == [C1, C2, C3];
  }

  /** Proof step of `ReversedHierarchyIsOrdered`: the empty first group joined with the sorted definitions. */
  lemma HierarchyOrder()
    ensures [] + [D1, D2, D3] == [D1, D2, D3]
  {
  }

  /** The hierarchy supplied as D3, D2, D1 is ordered D1, D2, D3: base types first. */
  lemma ReversedHierarchyIsOrdered()
    ensures SortMappings([D3, D2, D1], BaseTypes) == Success([D1, D2, D3])
  {
    HierarchyIsNotClassOrComponent();
    HierarchyPool();
    HierarchyCache();
    FirstStep();
    HierarchyDefinitions();
    HierarchyOrder();
  }

  /** Two customizers X and Y for T1 around a customizer B for T2. */
  const X := Customizer(Mapping(21, SubclassCustomizer, T1), T1)
  const B := Customizer(Mapping(22, JoinedSubclassCustomizer, T2), T2)
  const Y := Customizer(Mapping(23, UnionSubclassCustomizer, T1), T1)

  lemma DuplicateCache()
    ensures InitialCache([X, B, Y], BaseTypes) == map[T1 := [], T2 := [T1]]
  {
    BaseTypesOfHierarchy();
    assert Targets([X, B, Y]) == {T1, T2};
  }

  lemma DuplicateLastStep()
    ensures Sort([Y], map[]) == Success([Y])
  {
    assert FirstEmittableFrom([Y], map[], 0) == Some(0);
    assert RemoveAt([Y], 0) == [];
    assert [Y] + [] == [Y];
  }

  lemma DuplicateMiddleScan()
    ensures FirstEmittableFrom([B, Y], map[T2 := [T1]], 0) == Some(0)
    ensures RemoveAt([B, Y], 0) == [Y] && map[T2 := [T1]] - {T2} == map[]
  {
    assert !HasBaseClass(B, map[T2 := [T1]]);
  }

  lemma DuplicateMiddleStep()
    ensures Sort([B, Y], map[T2 := [T1]]) == Success([B, Y])
  {
    DuplicateMiddleScan();
    DuplicateLastStep();
    assert [B] + [Y] == [B, Y];
  }

  lemma DuplicateFirstScan()
    ensures FirstEmittableFrom([X, B, Y], map[T1 := [], T2 := [T1]], 0) == Some(0)
    ensures RemoveAt([X, B, Y], 0) == [B, Y] && map[T1 := [], T2 := [T1]] - {T1} == map[T2 := [T1]]
  {
    assert !HasBaseClass(X, map[T1 := [], T2 := [T1]]);
  }

  /** Emitting the head of the list, when the scan picks it, prepends it to the sort of the rest. */
  lemma EmitHead(pending: seq<Customizer>, cache: BaseTypeCache, rest: seq<Customizer>)
    requires |pending| > 0 && FirstEmittableFrom(pending, cache, 0) == Some(0)
    requires Sort(pending[1..], cache - {pending[0].target}) == Success(rest)
    ensures Sort(pending, cache) == Success([pending[0]] + rest)
  {
    assert RemoveAt(pending, 0) == pending[1..];
  }

  /** Proof step of `DuplicateFirstStep`: X joined with the sort of the rest. */
  lemma DuplicateOrder()
    ensures [X] + [B, Y] == [X, B, Y]
  {
  }

  lemma DuplicateFirstStep()
    ensures Sort([X, B, Y], map[T1 := [], T2 := [T1]]) == Success([X, B, Y])
  {
    DuplicateFirstScan();
    DuplicateMiddleStep();
    EmitHead([X, B, Y], map[T1 := [], T2 := [T1]], [B, Y]);
    DuplicateOrder();
  }

  /** With two customizers for T1, the first one releases T2: the second customizer for the
      ancestor T1 is emitted after the customizer for its descendant T2. Some customizer for
      each ancestor target still comes first. */
  lemma DuplicateTargetsOrder()
    ensures Sort([X, B, Y], InitialCache([X, B, Y], BaseTypes)) == Success([X, B, Y])
    ensures Y.target in BaseTypes(B.target)
  {
    DuplicateCache();
    DuplicateFirstStep();
    BaseTypesOfHierarchy();
  }

  /** Two domain types that list each other as ancestors. */
  const TA := Type(Declared(41), [], Some(ObjectType))
  const TB := Type(Declared(42), [], Some(ObjectType))

  function MutualAncestors(t: Type): seq<Type> {
    if t == TA then [TB] else if t == TB then [TA] else []
  }

  /** Customizers for two types that list each other as ancestors cannot be ordered. */
  lemma MutualAncestorsCannotBeOrdered()
    ensures Sort([Customizer(Mapping(43, SubclassCustomizer, TA), TA), Customizer(Mapping(44, SubclassCustomizer, TB), TB)],
      InitialCache([Customizer(Mapping(43, SubclassCustomizer, TA), TA), Customizer(Mapping(44, SubclassCustomizer, TB), TB)],
        MutualAncestors)) == Failure(ProgrammingError(UnableToSortMessage))
  {
    var pool := [Customizer(Mapping(43, SubclassCustomizer, TA), TA), Customizer(Mapping(44, SubclassCustomizer, TB), TB)];
    MutualAncestorsFail(pool, MutualAncestors, 0, 1);
  }

  /** A mapper that overrides MappingTypes, turns lazy loading off, configures a blank
      DefaultAccess and a DefaultCascade: the blank access keeps the engine's value. */
  method StampedDefaults() returns (mappings: seq<Type>, lazy: bool, access: Option<string>, cascade: Option<string>)
    ensures mappings == [D1] && !lazy && access == Some("property") && cascade == Some("all")
  {
    var mapper := new ModelMapperBase(MapperConfig(Some([D1]), Some(" "), false, Some("all")));
    assert "all"[0] == 'a' && !IsWhiteSpace('a');
    assert IsNullOrWhiteSpace(Some(" ")) && !IsNullOrWhiteSpace(Some("all"));
    var r := mapper.GetHbmMapping([], BaseTypes, MappingDefaults(true, Some("property"), None));
    mappings, lazy, access, cascade := r.value.mappings, r.value.defaultlazy, r.value.defaultaccess, r.value.defaultcascade;
  }

  /** A mapper left at its defaults over an empty catalogue: lazy loading on, and the
      engine's access and cascade values untouched. */
  method DefaultMapperDefaults() returns (mappings: seq<Type>, lazy: bool, access: Option<string>, cascade: Option<string>)
    ensures mappings == [] && lazy && access == Some("field") && cascade == None
  {
    var mapper := new ModelMapperBase(DefaultConfig);
    SortMappingsOfEmptyCatalogue(BaseTypes);
    var r := mapper.GetHbmMapping([], BaseTypes, MappingDefaults(false, Some("field"), None));
    mappings, lazy, access, cascade := r.value.mappings, r.value.defaultlazy, r.value.defaultaccess, r.value.defaultcascade;
  }

  /** Two lookups of the same (type, marker) pair: both give the walk's answer, the second
      from the cache, which it leaves as the first lookup left it, and only the first walks. */
  method RepeatedLookup() returns (mapper: ModelMapperBase, first: Option<Type>, second: Option<Type>, ghost afterFirst: Cache)
    ensures first == second == Some(T1)
    ensures afterFirst == CacheAfter(map[], D1, SubclassCustomizer) == map[D1 := map[SubclassCustomizer := Some(T1)]]
    ensures mapper.classCustomizersCache == afterFirst
    ensures mapper.walks == 1
  {
    mapper := new ModelMapperBase(DefaultConfig);
    MappingMarkers(11, SubclassCustomizer, T1, ClassCustomizer);
    first := mapper.GetFirstTypeArgumentOfOpenGeneric(D1, SubclassCustomizer);
    afterFirst := mapper.classCustomizersCache;
    second := mapper.GetFirstTypeArgumentOfOpenGeneric(D1, SubclassCustomizer);
  }
}
