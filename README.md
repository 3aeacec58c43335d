# Mapping order of the PPWCode NHibernate model mapper

This project models the ordering engine of `ModelMapperBase`, a base class that gathers
NHibernate mapping-by-code customizer types and hands them to NHibernate's `ModelMapper`.
It covers the following parts:

- **Classification.** A mapping type is a class customizer, component customizer, subclass
  customizer, joined-subclass customizer or union-subclass customizer when its base-type
  chain contains a closed specialization of the matching open generic marker
  (`ClassCustomizer<>` … `UnionSubclassCustomizer<>`). The marker's first type argument is
  the domain type the customizer targets.
- **Memoisation.** A two-level dictionary keyed by (customizer type, marker) remembers each
  walk's answer, including a negative one.
- **Ordering.** The class and component customizers come first, in catalogue order. The
  subclass-flavoured customizers are pooled (subclass, then joined, then union) and sorted
  topologically: each step emits the first customizer whose target has no ancestor still
  waiting. If the sort gets stuck, it fails with `ProgrammingError("Unable to sort the mappings.")`.
- **Stamping.** The compiled `HbmMapping` gets `defaultlazy` unconditionally. It gets
  `defaultaccess` and `defaultcascade` only when the configured string is neither null nor
  white space.

Modules:

- `Wrappers`: `Option` and `Result`.
- `Types`:
  - a CLR type is a datatype: its generic definition, its type arguments, and its base type, where `None` is null;
  - a `Customizer` pairs a mapping type with its target.
- `MarkerWalk`: the walk up the base-type chain, as the specification function `FirstTypeArgument` and as the loop method `GetFirstTypeArgumentOfOpenGenericInternal`.
- `Classification`: the `Is*Customizer` predicates and the LINQ filters.
- `ClassificationCache`: the cache as a value, and the function `CacheAfter` that gives the cache after one lookup.
- `TopologicalSort`:
  - `CalcBaseTypes`;
  - the sort specification `Sort`, which is recursive and emits the lowest-index customizer not held back;
  - the loop method `SortCustomizers`, which is proved equal to `Sort`;
  - `GetSubClassCustomizers`.
- `SortProperties`: permutation, ancestor-first order, lowest-index tie-break, and "fails exactly when the targets contain an ancestor cycle".
- `ModelMapping`:
  - `SortMappings`;
  - the compiled document `HbmMapping`, a class;
  - the mapper `ModelMapperBase`, a class owning the cache field, with `GetHbmMapping`.
- `Scenarios`: concrete catalogues worked through the model.

The specification functions are what the loops are proved against. Each loop method's
`ensures` equates its result, or its new state, with the specification function. The
lemmas then state what the source promises about that function.

Two behaviours of the code deserve a note:

- **Duplicate targets.** The code removes a target's key from the base-type dictionary when
  the first customizer for that target is emitted (line 168). A second customizer for that
  target is then no longer held back, and it can come after a descendant's customizer
  (`Scenarios.DuplicateTargetsOrder`). The model proves that some customizer for each
  ancestor target comes first (`SortProperties.SortedAncestorsComeFirst`). Strict precedence
  is proved for pairwise distinct targets (`SortProperties.SortedAncestorsPrecede`).
- **Type arguments.** A type matches a marker when its generic definition is the marker and
  it has at least one type argument (line 256). The walk then takes the first argument.

## Model

All source paths below are in `src/PPWCode.Vernacular.NHibernate.I/MappingByCode/ModelMapperBase.cs`.

| member | source | states |
|---|---|---|
| MarkerWalk.ChainIsBaseTypeChain | src/PPWCode.Vernacular.NHibernate.I/MappingByCode/ModelMapperBase.cs:253-261 | The types the walk visits start at the type itself, never include System.Object, follow `BaseType` link by link, and end where the base type is null or System.Object. |
| MarkerWalk.FirstTypeArgument | src/PPWCode.Vernacular.NHibernate.I/MappingByCode/ModelMapperBase.cs:251-265 | The walk specification. It starts at the type itself and follows `BaseType`. It answers null at a null type or System.Object. It answers the first type argument of the first type whose generic definition is the marker and which has at least one argument. Its meaning is stated by `FirstTypeArgumentIsNearestMatch`. |
| MarkerWalk.FirstTypeArgumentIsNearestMatch | src/PPWCode.Vernacular.NHibernate.I/MappingByCode/ModelMapperBase.cs:251-265 | A found answer is the first type argument of the nearest type on the chain that is a closed specialization of the marker, with no matching type before it. Null is returned exactly when no type on the chain matches. |
| MarkerWalk.GetFirstTypeArgumentOfOpenGenericInternal | src/PPWCode.Vernacular.NHibernate.I/MappingByCode/ModelMapperBase.cs:251-265 | The loop over `toCheck` and its base types returns exactly the nearest-match answer of the walk specification. |
| Classification.IsSubclassOfOpenGenericIff | src/PPWCode.Vernacular.NHibernate.I/MappingByCode/ModelMapperBase.cs:195-223 | A type carries a marker if and only if some type on its base-type chain is a closed specialization of that marker. |
| Classification.IsSubclassOfOpenGeneric | src/PPWCode.Vernacular.NHibernate.I/MappingByCode/ModelMapperBase.cs:220-223 | A type carries a marker when the walk's answer is not null. `IsSubclassOfOpenGenericIff` states this in terms of the base-type chain. |
| Classification.IsComponentCustomizer | src/PPWCode.Vernacular.NHibernate.I/MappingByCode/ModelMapperBase.cs:195-198 | A type is a component customizer when it carries the `ComponentCustomizer<>` marker. |
| Classification.IsClassCustomizer | src/PPWCode.Vernacular.NHibernate.I/MappingByCode/ModelMapperBase.cs:200-203 | A type is a class customizer when it carries the `ClassCustomizer<>` marker. |
| Classification.IsSubClassCustomizer | src/PPWCode.Vernacular.NHibernate.I/MappingByCode/ModelMapperBase.cs:205-208 | A type is a subclass customizer when it carries the `SubclassCustomizer<>` marker. |
| Classification.IsJoinedSubClassCustomizer | src/PPWCode.Vernacular.NHibernate.I/MappingByCode/ModelMapperBase.cs:210-213 | A type is a joined-subclass customizer when it carries the `JoinedSubclassCustomizer<>` marker. |
| Classification.IsUnionSubClassCustomizer | src/PPWCode.Vernacular.NHibernate.I/MappingByCode/ModelMapperBase.cs:215-218 | A type is a union-subclass customizer when it carries the `UnionSubclassCustomizer<>` marker. |
| Classification.GetClassOrComponentCustomizers | src/PPWCode.Vernacular.NHibernate.I/MappingByCode/ModelMapperBase.cs:133-137 | A type is kept if and only if it is in the catalogue and is a class or component customizer. Each kept type appears as often as in the catalogue; no other type appears. |
| Classification.GetClassOrComponentCustomizersKeepsOrder | src/PPWCode.Vernacular.NHibernate.I/MappingByCode/ModelMapperBase.cs:133-137 | The filter distributes over concatenation, so it keeps catalogue order. |
| Classification.CustomizersOf | src/PPWCode.Vernacular.NHibernate.I/MappingByCode/ModelMapperBase.cs:141-151 | A (definition, target) pair is produced if and only if the definition is in the catalogue and the walk for the marker names that target. The definitions are the catalogue's matching types in catalogue order. |
| Classification.FilterMarked | src/PPWCode.Vernacular.NHibernate.I/MappingByCode/ModelMapperBase.cs:141-151 | The `Where` filter of each group: a type is kept if and only if it is in the catalogue and carries the marker. |
| Classification.FilterMarkedCounts | src/PPWCode.Vernacular.NHibernate.I/MappingByCode/ModelMapperBase.cs:141-151 | Each type carrying the marker is kept as often as the catalogue holds it, and a type without it never appears. |
| Classification.FilterMarkedKeepsOrder | src/PPWCode.Vernacular.NHibernate.I/MappingByCode/ModelMapperBase.cs:141-151 | The filter distributes over concatenation, so each group keeps catalogue order. |
| Classification.SubclassPool | src/PPWCode.Vernacular.NHibernate.I/MappingByCode/ModelMapperBase.cs:139-156 | The pending list holds exactly the catalogue's subclass-flavoured customizers with their targets. Its definitions are the subclass, then joined-subclass, then union-subclass customizers, each group in catalogue order. |
| ClassificationCache.CacheAfter | src/PPWCode.Vernacular.NHibernate.I/MappingByCode/ModelMapperBase.cs:225-249 | After a lookup, the (type, marker) entry exists even when its value is null. A miss stores the walk's answer and a hit changes nothing. Every other entry is unchanged and none is added. A cache holding only walk answers keeps that property. |
| ClassificationCache.CacheAfterIsIdempotent | src/PPWCode.Vernacular.NHibernate.I/MappingByCode/ModelMapperBase.cs:225-249 | A second lookup of the same pair leaves the cache exactly as the first left it. |
| ModelMapping.ModelMapperBase.constructor | src/PPWCode.Vernacular.NHibernate.I/MappingByCode/ModelMapperBase.cs:33-42 | A new mapper starts with an empty cache, which holds only walk answers. |
| ModelMapping.ModelMapperBase.GetFirstTypeArgumentOfOpenGeneric | src/PPWCode.Vernacular.NHibernate.I/MappingByCode/ModelMapperBase.cs:225-249 | The cached lookup returns exactly what the uncached walk returns. The cache field becomes `CacheAfter` of its old value. A walk is performed only on a miss. |
| ModelMapping.ModelMapperBase.IsSubclassOfOpenGeneric | src/PPWCode.Vernacular.NHibernate.I/MappingByCode/ModelMapperBase.cs:220-223 | The cached test agrees with the marker predicate and updates the cache as one lookup does. |
| TopologicalSort.CalcBaseTypes | src/PPWCode.Vernacular.NHibernate.I/MappingByCode/ModelMapperBase.cs:184-193 | The dictionary's keys are exactly the distinct input types, and each maps to that type's ancestors. |
| TopologicalSort.CalcBaseTypesIsInitialCache | src/PPWCode.Vernacular.NHibernate.I/MappingByCode/ModelMapperBase.cs:158 | The dictionary built from the pool's targets is the initial cache of the sort specification. |
| TopologicalSort.HasBaseClass | src/PPWCode.Vernacular.NHibernate.I/MappingByCode/ModelMapperBase.cs:164 | A customizer is held back when its target is a key of the base-type dictionary and one of the target's listed ancestors is still a key. `SortProperties.HasBaseClassIsCachedAncestor` restates it as "the target has a cached ancestor among the keys". |
| TopologicalSort.Sort | src/PPWCode.Vernacular.NHibernate.I/MappingByCode/ModelMapperBase.cs:158-181 | The sort specification. An empty list sorts to the empty sequence. Otherwise the lowest-index customizer not held back is emitted, its target's key is removed, and the rest is sorted. When every customizer is held back, the result is the ProgrammingError. Its properties are the `SortProperties` lemmas. |
| TopologicalSort.FirstEmittableFrom | src/PPWCode.Vernacular.NHibernate.I/MappingByCode/ModelMapperBase.cs:160-175 | The scan finds the lowest index at or after its start whose customizer is not held back, and every customizer it skips is held back. When it finds none, every customizer from the start on is held back. |
| TopologicalSort.RemoveAt | src/PPWCode.Vernacular.NHibernate.I/MappingByCode/ModelMapperBase.cs:169 | Removing an entry shifts the later ones down by one, keeps the earlier ones, and removes exactly one occurrence of that customizer. |
| TopologicalSort.SortFailureMessage | src/PPWCode.Vernacular.NHibernate.I/MappingByCode/ModelMapperBase.cs:178-181 | Every failure of the sort is the ProgrammingError "Unable to sort the mappings.". |
| TopologicalSort.EmitStep | src/PPWCode.Vernacular.NHibernate.I/MappingByCode/ModelMapperBase.cs:164-170 | Suppose the candidate at `idx` is not held back and all before it are. Then emitting it, removing its cache key and its list entry, and restarting is the first step of the sort. |
| TopologicalSort.StuckStep | src/PPWCode.Vernacular.NHibernate.I/MappingByCode/ModelMapperBase.cs:171-181 | When the scan reaches the end of a non-empty list with every candidate held back, the outcome is the ProgrammingError. |
| TopologicalSort.SortCustomizers | src/PPWCode.Vernacular.NHibernate.I/MappingByCode/ModelMapperBase.cs:158-181 | The while loop's outcome is the sort specification applied to the pool and its initial cache. Invariants: every candidate before `idx` is held back, and the output so far joined with the sort of what remains is the sort of the pool. |
| TopologicalSort.GetSubClassCustomizers | src/PPWCode.Vernacular.NHibernate.I/MappingByCode/ModelMapperBase.cs:139-181 | The method returns the definitions of the sorted pool, or the ProgrammingError. |
| SortProperties.SortIsPermutation | src/PPWCode.Vernacular.NHibernate.I/MappingByCode/ModelMapperBase.cs:160-176 | A successful sort emits every pending customizer exactly once: as a multiset, the output equals the pending list. |
| SortProperties.IsTargetOfIsTargets | src/PPWCode.Vernacular.NHibernate.I/MappingByCode/ModelMapperBase.cs:164-168 | A type is the target of some pending customizer exactly when it is in the set of pending targets. |
| SortProperties.HasBaseClassIsCachedAncestor | src/PPWCode.Vernacular.NHibernate.I/MappingByCode/ModelMapperBase.cs:164 | The held-back test is the same as "the target is a key with a cached ancestor among the keys". |
| SortProperties.SortEmitsLowestIndexFirst | src/PPWCode.Vernacular.NHibernate.I/MappingByCode/ModelMapperBase.cs:160-175 | The first emitted customizer is the lowest-index pending customizer that is not held back. |
| SortProperties.SortEmitsAncestorTargetsFirst | src/PPWCode.Vernacular.NHibernate.I/MappingByCode/ModelMapperBase.cs:164-170 | Take an emitted customizer whose target had a cache entry. Each ancestor of its target that was a key is the target of some earlier emitted customizer. |
| SortProperties.SortFailsOnBlockedSet | src/PPWCode.Vernacular.NHibernate.I/MappingByCode/ModelMapperBase.cs:160-181 | Suppose a non-empty set of keys each has a cached ancestor in the set. Then the sort fails, because nothing targeting that set can ever be emitted. |
| SortProperties.SortFailureHasBlockedSet | src/PPWCode.Vernacular.NHibernate.I/MappingByCode/ModelMapperBase.cs:160-181 | A failed sort leaves such a blocked set among the cache keys. |
| SortProperties.SortKeepsDistinctTargets | src/PPWCode.Vernacular.NHibernate.I/MappingByCode/ModelMapperBase.cs:166-169 | The output of a sort whose input has pairwise distinct targets also has pairwise distinct targets. |
| SortProperties.SortFailsIffAncestorCycle | src/PPWCode.Vernacular.NHibernate.I/MappingByCode/ModelMapperBase.cs:158-181 | The sort of a pool fails if and only if some set of the pool's targets forms an ancestor cycle, that is, each lists a member of the set among its ancestors. |
| SortProperties.MutualAncestorsFail | src/PPWCode.Vernacular.NHibernate.I/MappingByCode/ModelMapperBase.cs:160-181 | Two customizers whose targets list each other as ancestors make the sort fail with the ProgrammingError. |
| SortProperties.SortedAncestorsComeFirst | src/PPWCode.Vernacular.NHibernate.I/MappingByCode/ModelMapperBase.cs:158-193 | After a successful sort, each ancestor of an emitted customizer's target that is itself a pool target is the target of some customizer emitted earlier. |
| SortProperties.SortedAncestorsPrecede | src/PPWCode.Vernacular.NHibernate.I/MappingByCode/ModelMapperBase.cs:158-193 | When targets are pairwise distinct, a customizer whose target is an ancestor of another customizer's target is emitted strictly before it. |
| ModelMapping.SortMappingsOrder | src/PPWCode.Vernacular.NHibernate.I/MappingByCode/ModelMapperBase.cs:120-131 | A successful ordering starts with exactly the class and component customizers in catalogue order. It is followed by a permutation of the subclass, joined-subclass and union-subclass customizers. |
| ModelMapping.SortedPoolDefinitions | src/PPWCode.Vernacular.NHibernate.I/MappingByCode/ModelMapperBase.cs:139-176 | When the sort of the subclass pool succeeds, its definitions are, as a multiset, the subclass, joined-subclass and union-subclass customizers of the catalogue. |
| ModelMapping.SortMappings | src/PPWCode.Vernacular.NHibernate.I/MappingByCode/ModelMapperBase.cs:120-131 | The ordering specification: the class and component customizers, followed by the definitions of the sorted subclass pool, or the sort's ProgrammingError. Its properties are the `SortMappings*` lemmas below. |
| ModelMapping.SortMappingsKeepsOnlyCustomizers | src/PPWCode.Vernacular.NHibernate.I/MappingByCode/ModelMapperBase.cs:120-156 | Every ordered type comes from the catalogue and carries one of the five markers, so types carrying none are dropped. |
| ModelMapping.SortMappingsFailsIffAncestorCycle | src/PPWCode.Vernacular.NHibernate.I/MappingByCode/ModelMapperBase.cs:120-181 | The ordering fails, always with the ProgrammingError message, if and only if the subclass customizers' targets contain an ancestor cycle. |
| ModelMapping.SortMappingsOfEmptyCatalogue | src/PPWCode.Vernacular.NHibernate.I/MappingByCode/ModelMapperBase.cs:120-131 | An empty catalogue orders to the empty sequence. |
| ModelMapping.HbmMapping.Compile | src/PPWCode.Vernacular.NHibernate.I/MappingByCode/ModelMapperBase.cs:102-104 | The compiled document records the added mapping types and the engine's own defaults. |
| ModelMapping.IsNullOrWhiteSpace | src/PPWCode.Vernacular.NHibernate.I/MappingByCode/ModelMapperBase.cs:107-115 | A configured string is null or white space when it is absent or every character is white space. Only a string for which this is false is stamped, as `GetHbmMapping` states. |
| ModelMapping.DefaultConfigStampsOnlyLazy | src/PPWCode.Vernacular.NHibernate.I/MappingByCode/ModelMapperBase.cs:267-285 | The default properties are a null MappingTypes, DefaultLazy true, and a DefaultAccess and DefaultCascade that are null, so neither is stamped. |
| ModelMapping.ModelMapperBase.GetHbmMapping | src/PPWCode.Vernacular.NHibernate.I/MappingByCode/ModelMapperBase.cs:95-118 | A non-null MappingTypes is compiled as is. Otherwise the call succeeds exactly when the ordering succeeds, and it compiles the ordering. `defaultlazy` is always DefaultLazy. `defaultaccess` and `defaultcascade` take the configured value unless it is null or white space, in which case they keep the engine's value. A failure is the ProgrammingError. |
| Scenarios.ReversedHierarchyIsOrdered | src/PPWCode.Vernacular.NHibernate.I/MappingByCode/ModelMapperBase.cs:158-181 | Subclass customizers for T3 ← T2 ← T1 supplied as D3, D2, D1 are ordered D1, D2, D3. |
| Scenarios.DuplicateTargetsOrder | src/PPWCode.Vernacular.NHibernate.I/MappingByCode/ModelMapperBase.cs:164-170 | Take customizers X and Y for T1 around B for T2, where T1 is T2's base. They are emitted X, B, Y, so the second customizer for the ancestor comes after the descendant's. |
| Scenarios.MutualAncestorsCannotBeOrdered | src/PPWCode.Vernacular.NHibernate.I/MappingByCode/ModelMapperBase.cs:178-181 | Two customizers whose targets list each other as ancestors fail with the ProgrammingError. |
| Scenarios.StampedDefaults | src/PPWCode.Vernacular.NHibernate.I/MappingByCode/ModelMapperBase.cs:106-115 | DefaultLazy false is stamped. A blank DefaultAccess keeps the engine's access, and a DefaultCascade of "all" is stamped. A non-null MappingTypes is compiled as is. |
| Scenarios.DefaultMapperDefaults | src/PPWCode.Vernacular.NHibernate.I/MappingByCode/ModelMapperBase.cs:267-285 | With the default properties (MappingTypes, DefaultAccess and DefaultCascade null, DefaultLazy true), lazy loading is on and the engine's access and cascade stand. |
| Scenarios.RepeatedLookup | src/PPWCode.Vernacular.NHibernate.I/MappingByCode/ModelMapperBase.cs:225-249 | Two lookups of one (type, marker) pair both answer the walk's target. The first leaves the cache holding exactly that pair with its answer, the second leaves it unchanged, and the ghost walk count stays at one. |

## Left out

- The constructor's subscription of the `BeforeMap*`/`AfterMap*` events and the empty virtual `OnBefore*`/`OnAfter*` hooks (lines 44-82 and 287-437) are not modelled: they carry no behaviour of the mapper itself.
- `ModelMapper.AddMappings` and `CompileMappingForAllExplicitlyAddedEntities` belong to NHibernate and are not visible. The compiled document is `HbmMapping.Compile`: it takes the added types and the engine's defaults as a parameter. The engine's accumulation of mappings across calls is not modelled.
- Assembly scanning (`GetAssemblies`, `GetExportedTypes`, the `IConformistHoldersProvider` and `IsGenericTypeDefinition` filter, lines 98-101) is replaced by the input sequence `catalogue`. The `Contract.Requires` on the assemblies argument goes with it.
- `Type.GetBaseTypes()` is an NHibernate extension whose body is not visible. It is the parameter `ancestors`, and no property of it is assumed; the scenarios supply the base-type chain.
- Reflection is reduced to what the walk reads:
  - the generic definition, the type arguments and `BaseType`;
  - interfaces play no part;
  - a non-marker type is identified by a number standing for its full name.
- Lazy `yield` enumeration is not modelled. The model returns either the whole ordered sequence or the failure, so it does not capture that a consumer may already have taken the entries produced before the exception. The same goes for the repeated enumeration of the catalogue by each filter: it is taken to be a fixed sequence.
- ModelMapping.ModelMapperBase.GetHbmMapping: classifies the catalogue with the pure marker predicates rather than through the cache. Its contract therefore does not say that the call fills `m_ClassCustomizersCache`. `ModelMapperBase.GetFirstTypeArgumentOfOpenGeneric` proves that every cached answer equals the pure one, so the ordering is the same.
- `Dictionary.Add` throwing on a duplicate key is not modelled, because it cannot happen here. `CalcBaseTypes` iterates the distinct types, and the cache adds only after a failed `TryGetValue`.
- Concurrency is not modelled: a mapper and its cache are used from one thread.
- `ImmutableUserTypeBase` and the integration tests and fixtures are not part of this model: they are identity functions and database I/O.
