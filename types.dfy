/** The reflection view of CLR types that the mapping engine relies on. */
module Types {
  import opened Wrappers

  /** The five open generic customizer definitions a mapping class may derive from. */
  datatype Marker =
    | ClassCustomizer
    | ComponentCustomizer
    | SubclassCustomizer
    | JoinedSubclassCustomizer
    | UnionSubclassCustomizer

  /** What a type is once its generic arguments are stripped: System.Object, one of the
      open marker generics, or any other declared type (generic or not), which is told
      apart from the others by a number standing for its full name. */
  datatype TypeDefinition = Object | OpenGeneric(marker: Marker) | Declared(id: nat)

  /** A runtime type: its generic definition, its generic type arguments (empty for a
      non-generic type and for an open generic definition) and its base type (None for null). */
  datatype Type = Type(definition: TypeDefinition, typeArguments: seq<Type>, baseType: Option<Type>)

  /** The root type at which every base-type walk stops. */
  const ObjectType := Type(Object, [], None)

  predicate IsObject(t: Type) {
    t.definition == Object
  }

  /** `t` is a closed specialization of the marker: its generic definition is the marker
      and it carries at least one type argument. */
  predicate IsSpecializationOf(t: Type, generic: Marker) {
    t.definition == OpenGeneric(generic) && |t.typeArguments| > 0
  }

  /** A subclass-flavoured customizer paired with the domain type it targets. */
  datatype Customizer = Customizer(definition: Type, target: Type)

  function Definitions(cs: seq<Customizer>): (r: seq<Type>)
    ensures |r| == |cs|
  {
    if |cs| == 0 then [] else [cs[0].definition] + Definitions(cs[1..])
  }

  /** The i-th definition is the definition of the i-th customizer. */
  lemma {:induction false} DefinitionAt(cs: seq<Customizer>, i: nat)
    requires i < |cs|
    ensures Definitions(cs)[i] == cs[i].definition
    decreases i
  {
    if i > 0 {
      DefinitionAt(cs[1..], i - 1);
    }
  }

  /** The exception raised when the subclass customizers cannot be ordered. */
  datatype MappingError = ProgrammingError(message: string)

  const UnableToSortMessage := "Unable to sort the mappings."
}
