/** The walk up a customizer's base-type chain that finds the closed marker it derives from. */
module MarkerWalk {
  import opened Wrappers
  import opened Types

  /** The types the walk visits: the start type and then its base types, up to but not
      including null or System.Object. */
  function Chain(start: Option<Type>): seq<Type>
    decreases start
  {
    match start
    case None => []
    case Some(t) => if IsObject(t) then [] else [t] + Chain(t.baseType)
  }

  /** The chain starts at the start type, holds no System.Object, links each type to its
      base type, and ends at a type whose base type is null or System.Object. */
  lemma {:induction false} ChainIsBaseTypeChain(start: Option<Type>)
    ensures var r := Chain(start);
      (forall i :: 0 <= i < |r| ==> !IsObject(r[i])) &&
      (start.Some? && !IsObject(start.value) ==> |r| > 0 && r[0] == start.value) &&
      (start.None? || IsObject(start.value) ==> r == []) &&
      (forall i :: 0 <= i < |r| - 1 ==> r[i].baseType == Some(r[i + 1])) &&
      (|r| > 0 ==> r[|r| - 1].baseType.None? || IsObject(r[|r| - 1].baseType.value))
    decreases start
  {
    match start
    case None =>
    case Some(t) =>
      if !IsObject(t) {
        ChainIsBaseTypeChain(t.baseType);
        var r, rest := Chain(start), Chain(t.baseType);
        assert r == [t] + rest;
        forall i | 0 <= i < |r| - 1 ensures r[i].baseType == Some(r[i + 1]) {
          if i > 0 {
            assert r[i] == rest[i - 1] && r[i + 1] == rest[i];
          } else {
            assert t.baseType.Some? && !IsObject(t.baseType.value);
          }
        }
      }
  }

  /** The specification of the walk: the first type argument of the nearest closed
      specialization of `generic`, or None. */
  function FirstTypeArgument(start: Option<Type>, generic: Marker): Option<Type>
    decreases start
  {
    match start
    case None => None
    case Some(t) =>
      if IsObject(t) then None
      else if IsSpecializationOf(t, generic) then Some(t.typeArguments[0])
      else FirstTypeArgument(t.baseType, generic)
  }

  /** Position `i` of `chain` is a specialization of `generic` and no earlier one is. */
  ghost predicate NearestMatchAt(chain: seq<Type>, generic: Marker, i: int) {
    0 <= i < |chain| && IsSpecializationOf(chain[i], generic) &&
    forall j :: 0 <= j < i ==> !IsSpecializationOf(chain[j], generic)
  }

  /** The walk returns the first type argument of the nearest matching type in the chain,
      and None exactly when no type in the chain matches. */
  lemma {:induction false} FirstTypeArgumentIsNearestMatch(start: Option<Type>, generic: Marker)
    ensures FirstTypeArgument(start, generic).Some? ==>
      exists i :: NearestMatchAt(Chain(start), generic, i) &&
        FirstTypeArgument(start, generic).value == Chain(start)[i].typeArguments[0]
    ensures FirstTypeArgument(start, generic).None? ==>
      forall i :: 0 <= i < |Chain(start)| ==> !IsSpecializationOf(Chain(start)[i], generic)
    decreases start
  {
    match start
    case None =>
    case Some(t) =>
      if IsObject(t) {
      } else if IsSpecializationOf(t, generic) {
        assert NearestMatchAt(Chain(start), generic, 0);
      } else {
        FirstTypeArgumentIsNearestMatch(t.baseType, generic);
        var c, c' := Chain(start), Chain(t.baseType);
        assert c == [t] + c';
        if FirstTypeArgument(start, generic).Some? {
          var i :| NearestMatchAt(c', generic, i) &&
            FirstTypeArgument(start, generic).value == c'[i].typeArguments[0];
          assert NearestMatchAt(c, generic, i + 1);
        } else {
          forall i | 0 <= i < |c| ensures !IsSpecializationOf(c[i], generic) {
            if i > 0 { assert c[i] == c'[i - 1]; }
          }
        }
      }
  }

  /** The uncached walk: the loop over `toCheck` and its base types. */
  method GetFirstTypeArgumentOfOpenGenericInternal(toCheck: Type, generic: Marker) returns (r: Option<Type>)
    ensures r == FirstTypeArgument(Some(toCheck), generic)
  {
    var current := Some(toCheck);
    while current.Some? && !IsObject(current.value)
      invariant FirstTypeArgument(current, generic) == FirstTypeArgument(Some(toCheck), generic)
      decreases current
    {
      if IsSpecializationOf(current.value, generic) {
        return Some(current.value.typeArguments[0]);
      }
      current := current.value.baseType;
    }
    return None;
  }
}
