/**
 * The introspected GraphQL type system as the scripts receive it: a list of
 * type records, and type references whose `ofType` links form wrapper chains
 * (GraphQL specification, October 2021, sections 3.11, 3.12 and 4.2). Where an
 * introspection query stops nesting `ofType`, the innermost link has none.
 */
module Schema {

  import opened Wrappers
  import opened Text

  datatype Kind = Scalar | Object | Interface | Union | Enum | InputObject | List | NonNull

  /** A `type { kind name ofType { … } }` reference. */
  datatype TypeRef = TypeRef(kind: Kind, name: Option<string>, ofType: Option<TypeRef>)

  /** An argument; `atype` is absent when the introspection query asks only for names. */
  datatype ArgDef = ArgDef(name: string, atype: Option<TypeRef>)

  /** A field; `ftype` is absent when the introspection query does not ask for it. */
  datatype FieldDef = FieldDef(name: string, args: seq<ArgDef>, ftype: Option<TypeRef>)

  /** A type record. A JSON null and an empty list of fields or enum values are both empty here. */
  datatype TypeDef = TypeDef(name: string, kind: Kind, fields: seq<FieldDef>, enumValues: seq<string>)

  predicate IsWrapper(k: Kind)
  {
    k == NonNull || k == List
  }

  /** The links `t`, `t.ofType`, `t.ofType.ofType`, … */
  function Chain(t: TypeRef): (r: seq<TypeRef>)
    ensures |r| >= 1 && r[0] == t
  {
    match t.ofType
    case None => [t]
    case Some(u) => [t] + Chain(u)
  }

  /** Whether `unwrap_type` steps past this link. */
  predicate Unwraps(t: TypeRef)
  {
    IsWrapper(t.kind) && t.ofType.Some?
  }

  /** The link where unwrapping stops. */
  function BaseType(t: TypeRef): TypeRef
  {
    if Unwraps(t) then BaseType(t.ofType.value) else t
  }

  /**
   * Unwrapping stops at the first link of the chain that is not a wrapper with
   * a fetched `ofType`; every link before it is one.
   */
  lemma {:induction false} BaseTypeInChain(t: TypeRef)
    ensures exists i :: (0 <= i < |Chain(t)| && Chain(t)[i] == BaseType(t)
                         && forall j :: 0 <= j < i ==> Unwraps(Chain(t)[j]))
    ensures !Unwraps(BaseType(t))
  {
    if Unwraps(t) {
      var u := t.ofType.value;
      BaseTypeInChain(u);
      var i :| (0 <= i < |Chain(u)| && Chain(u)[i] == BaseType(u)
                && forall j :: 0 <= j < i ==> Unwraps(Chain(u)[j]));
      assert Chain(t) == [t] + Chain(u);
      assert Chain(t)[i + 1] == BaseType(t);
      forall j | 0 <= j < i + 1 ensures Unwraps(Chain(t)[j]) {
        if j > 0 {
          assert Chain(t)[j] == Chain(u)[j - 1];
        }
      }
    } else {
      assert Chain(t)[0] == BaseType(t);
    }
  }

  /** Wrapping a type in NON_NULL or LIST does not change its base. */
  lemma BaseTypeOfWrapped(k: Kind, t: TypeRef)
    requires IsWrapper(k)
    ensures BaseType(TypeRef(k, None, Some(t))) == BaseType(t)
  {
  }

  /** The last link of the chain, which `get_type_name` and `get_named_type` reach. */
  function LastLink(t: TypeRef): (r: TypeRef)
    ensures r.ofType.None?
  {
    match t.ofType
    case None => t
    case Some(u) => LastLink(u)
  }

  lemma {:induction false} LastLinkIsLast(t: TypeRef)
    ensures LastLink(t) == Chain(t)[|Chain(t)| - 1]
  {
    match t.ofType
    case None =>
    case Some(u) =>
      LastLinkIsLast(u);
  }

  function NamedTypeName(t: TypeRef): Option<string>
  {
    LastLink(t).name
  }

  /**
   * The position of the first type record whose name equals `name`, or -1;
   * a missing name (`None`) matches nothing.
   */
  function FindTypeIndex(types: seq<TypeDef>, name: Option<string>): (r: int)
    ensures -1 <= r < |types|
    ensures r >= 0 ==> name == Some(types[r].name)
    ensures forall j :: 0 <= j < |types| && (r == -1 || j < r) ==> name != Some(types[j].name)
  {
    if |types| == 0 then -1
    else if name == Some(types[0].name) then 0
    else
      var k := FindTypeIndex(types[1..], name);
      if k == -1 then -1 else k + 1
  }

  /** The first type record named `name`, as both `next(...)` and `get_type` search. */
  function FindType(types: seq<TypeDef>, name: Option<string>): (r: Option<TypeDef>)
    ensures r.Some? ==> r.value in types && name == Some(r.value.name)
    ensures r.None? <==> forall j :: 0 <= j < |types| ==> name != Some(types[j].name)
  {
    var i := FindTypeIndex(types, name);
    if i >= 0 then Some(types[i]) else None
  }

  /** The argument names of a field, in order. */
  function ArgNames(args: seq<ArgDef>): (r: seq<string>)
    ensures |r| == |args| && forall i :: 0 <= i < |args| ==> r[i] == args[i].name
  {
    if args == [] then [] else [args[0].name] + ArgNames(args[1..])
  }

  function TypeNames(types: seq<TypeDef>): set<string>
  {
    set t | t in types :: t.name
  }

  predicate FieldsTyped(fs: seq<FieldDef>)
  {
    forall f :: f in fs ==> f.ftype.Some?
  }

  /** Every field of every record carries its type (the introspection asked for it). */
  predicate SchemaTyped(types: seq<TypeDef>)
  {
    forall t :: t in types ==> FieldsTyped(t.fields)
  }

  /** No field carries its type (the introspection did not ask for it). */
  predicate SchemaUntyped(types: seq<TypeDef>)
  {
    forall t, f :: t in types && f in t.fields ==> f.ftype.None?
  }

  predicate NameChar(c: char)
  {
    c == '_' || 'a' <= c <= 'z' || 'A' <= c <= 'Z' || '0' <= c <= '9'
  }

  /** A GraphQL Name (section 2.1.9): letters, digits and underscores, not starting with a digit. */
  predicate IsName(s: string)
  {
    |s| > 0 && !('0' <= s[0] <= '9') && forall i :: 0 <= i < |s| ==> NameChar(s[i])
  }

  /** Every field name in the schema is a GraphQL Name. */
  predicate WellNamed(types: seq<TypeDef>)
  {
    forall t, f :: t in types && f in t.fields ==> IsName(f.name)
  }
}
