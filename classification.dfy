/** The customizer predicates and the filters that split the catalogue of mapping types. */
module Classification {
  import opened Wrappers
  import opened Types
  import opened MarkerWalk

  /** `t` derives from a closed specialization of `generic`. */
  predicate IsSubclassOfOpenGeneric(t: Type, generic: Marker) {
    FirstTypeArgument(Some(t), generic).Some?
  }

  predicate IsClassCustomizer(t: Type) { IsSubclassOfOpenGeneric(t, ClassCustomizer) }

  predicate IsComponentCustomizer(t: Type) { IsSubclassOfOpenGeneric(t, ComponentCustomizer) }

  predicate IsSubClassCustomizer(t: Type) { IsSubclassOfOpenGeneric(t, SubclassCustomizer) }

  predicate IsJoinedSubClassCustomizer(t: Type) { IsSubclassOfOpenGeneric(t, JoinedSubclassCustomizer) }

  predicate IsUnionSubClassCustomizer(t: Type) { IsSubclassOfOpenGeneric(t, UnionSubclassCustomizer) }

  /** A type matches a marker exactly when one of the types on its base-type chain
      is a closed specialization of that marker. */
  lemma IsSubclassOfOpenGenericIff(t: Type, generic: Marker)
    ensures IsSubclassOfOpenGeneric(t, generic) <==>
      exists i :: 0 <= i < |Chain(Some(t))| && IsSpecializationOf(Chain(Some(t))[i], generic)
  {
    FirstTypeArgumentIsNearestMatch(Some(t), generic);
    if IsSubclassOfOpenGeneric(t, generic) {
      var i :| NearestMatchAt(Chain(Some(t)), generic, i) &&
        FirstTypeArgument(Some(t), generic).value == Chain(Some(t))[i].typeArguments[0];
    }
  }

  predicate IsClassOrComponentCustomizer(t: Type) {
    IsClassCustomizer(t) || IsComponentCustomizer(t)
  }

  /** The class and component customizers of the catalogue, in catalogue order. */
  function GetClassOrComponentCustomizers(types: seq<Type>): (r: seq<Type>)
    ensures forall t :: t in r <==> t in types && IsClassOrComponentCustomizer(t)
    ensures forall t :: IsClassOrComponentCustomizer(t) ==> multiset(r)[t] == multiset(types)[t]
    ensures forall t :: !IsClassOrComponentCustomizer(t) ==> multiset(r)[t] == 0
  {
    if |types| == 0 then []
    else
      assert types == [types[0]] + types[1..];
      if IsClassOrComponentCustomizer(types[0])
      then [types[0]] + GetClassOrComponentCustomizers(types[1..])
      else GetClassOrComponentCustomizers(types[1..])
  }

  /** Filtering a concatenation is concatenating the filtered parts: the filter keeps order. */
  lemma {:induction false} GetClassOrComponentCustomizersKeepsOrder(a: seq<Type>, b: seq<Type>)
    ensures GetClassOrComponentCustomizers(a + b) ==
      GetClassOrComponentCustomizers(a) + GetClassOrComponentCustomizers(b)
  {
    if |a| > 0 {
      assert (a + b)[1..] == a[1..] + b;
      GetClassOrComponentCustomizersKeepsOrder(a[1..], b);
    } else {
      assert a + b == b;
    }
  }

  /** The customizers of the catalogue that match `generic`, each paired with the domain
      type the marker's type argument names, in catalogue order. */
  function CustomizersOf(types: seq<Type>, generic: Marker): (r: seq<Customizer>)
    ensures forall c :: c in r <==>
      c.definition in types && FirstTypeArgument(Some(c.definition), generic) == Some(c.target)
    ensures Definitions(r) == FilterMarked(types, generic)
  {
    if |types| == 0 then []
    else
      var rest := CustomizersOf(types[1..], generic);
      assert forall t :: t in types <==> t == types[0] || t in types[1..];
      match FirstTypeArgument(Some(types[0]), generic)
      case Some(target) =>
        assert Definitions([Customizer(types[0], target)] + rest) == [types[0]] + Definitions(rest);
        [Customizer(types[0], target)] + rest
      case None => rest
  }

  /** The catalogue types that match `generic`, in catalogue order. */
  function FilterMarked(types: seq<Type>, generic: Marker): (r: seq<Type>)
    ensures forall t :: t in r <==> t in types && IsSubclassOfOpenGeneric(t, generic)
  {
    if |types| == 0 then []
    else
      assert forall t :: t in types <==> t == types[0] || t in types[1..];
      if IsSubclassOfOpenGeneric(types[0], generic)
      then [types[0]] + FilterMarked(types[1..], generic)
      else FilterMarked(types[1..], generic)
  }

  /** Each marked type is kept as often as the catalogue holds it; an unmarked one never is. */
  lemma {:induction false} FilterMarkedCounts(types: seq<Type>, generic: Marker)
    ensures forall t :: IsSubclassOfOpenGeneric(t, generic) ==>
      multiset(FilterMarked(types, generic))[t] == multiset(types)[t]
    ensures forall t :: !IsSubclassOfOpenGeneric(t, generic) ==> multiset(FilterMarked(types, generic))[t] == 0
  {
    if |types| > 0 {
      assert types == [types[0]] + types[1..];
      FilterMarkedCounts(types[1..], generic);
    }
  }

  /** Filtering a concatenation is concatenating the filtered parts: the filter keeps order. */
  lemma {:induction false} FilterMarkedKeepsOrder(a: seq<Type>, b: seq<Type>, generic: Marker)
    ensures FilterMarked(a + b, generic) == FilterMarked(a, generic) + FilterMarked(b, generic)
  {
    if |a| > 0 {
      assert (a + b)[1..] == a[1..] + b;
      FilterMarkedKeepsOrder(a[1..], b, generic);
    } else {
      assert a + b == b;
    }
  }

  /** The pending list of the sort: subclass, then joined-subclass, then union-subclass
      customizers, each group in catalogue order. */
  function SubclassPool(types: seq<Type>): (r: seq<Customizer>)
    ensures forall c :: c in r <==> (c.definition in types && IsSubclassTarget(c))
    ensures Definitions(r) == FilterMarked(types, SubclassCustomizer) +
      FilterMarked(types, JoinedSubclassCustomizer) + FilterMarked(types, UnionSubclassCustomizer)
  {
    var s, j, u := CustomizersOf(types, SubclassCustomizer),
      CustomizersOf(types, JoinedSubclassCustomizer), CustomizersOf(types, UnionSubclassCustomizer);
    DefinitionsOfConcat(s, j);
    DefinitionsOfConcat(s + j, u);
    s + j + u
  }

  /** The target of `c` is what one of the three subclass markers names for its definition. */
  predicate IsSubclassTarget(c: Customizer) {
    FirstTypeArgument(Some(c.definition), SubclassCustomizer) == Some(c.target) ||
    FirstTypeArgument(Some(c.definition), JoinedSubclassCustomizer) == Some(c.target) ||
    FirstTypeArgument(Some(c.definition), UnionSubclassCustomizer) == Some(c.target)
  }

  lemma {:induction false} DefinitionsOfConcat(a: seq<Customizer>, b: seq<Customizer>)
    ensures Definitions(a + b) == Definitions(a) + Definitions(b)
    decreases |a|
  {
    if |a| == 0 {
      assert a + b == b;
    } else {
      assert (a + b)[1..] == a[1..] + b;
      DefinitionsOfConcat(a[1..], b);
    }
  }
}
