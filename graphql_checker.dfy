/**
 * The GraphQL analyzer (`graphql_checker_v4.py`, whose checker half
 * `graphql_checker_v3.py` repeats): PII field detection with proof-of-concept
 * queries, and an endpoint checker that guesses argument values and builds one
 * query per field of the schema.
 */
module GraphqlChecker {

  import opened Wrappers
  import opened Text
  import opened Braces
  import opened Schema
  import opened Json
  import opened ContentType
  import Lists

  // ------------------------------------------------------------ type lookups

  /** `get_type`: the first type record with the given name. */
  method GetType(types: seq<TypeDef>, name: Option<string>) returns (r: Option<TypeDef>)
    ensures r == FindType(types, name)
  {
    for i := 0 to |types|
      invariant forall j :: 0 <= j < i ==> name != Some(types[j].name)
    {
      if Some(types[i].name) == name {
        return Some(types[i]);
      }
    }
    return None;
  }

  /**
   * `get_named_type` (and `get_type_name`, which tests the same link for
   * truthiness): the name at the end of the `ofType` chain.
   */
  method GetNamedType(t: TypeRef) returns (r: Option<string>)
    ensures r == NamedTypeName(t)
    ensures r == Chain(t)[|Chain(t)| - 1].name
  {
    var cur := t;
    while cur.ofType.Some?
      invariant LastLink(cur) == LastLink(t)
      decreases cur
    {
      cur := cur.ofType.value;
    }
    LastLinkIsLast(t);
    return cur.name;
  }

  // ------------------------------------------------------ build_fields_block

  /** Levels of nesting `build_fields_block` still allows at `depth`. */
  function Levels(depth: int): nat
  {
    if depth > 3 then 0 else 4 - depth
  }

  /** `build_fields_block`: the space-separated field entries of a type, empty beyond depth 3. */
  function FieldsBlock(t: TypeDef, types: seq<TypeDef>, depth: int): string
    requires FieldsTyped(t.fields) && SchemaTyped(types)
    decreases Levels(depth), 2
  {
    if depth > 3 then "" else Join(FieldParts(t.fields, types, depth), " ")
  }

  function FieldParts(fs: seq<FieldDef>, types: seq<TypeDef>, depth: int): (r: seq<string>)
    requires depth <= 3 && FieldsTyped(fs) && SchemaTyped(types)
    ensures |r| == |fs|
    ensures forall i :: 0 <= i < |fs| ==> r[i] == FieldPart(fs[i], types, depth)
    decreases Levels(depth), 1, |fs|
  {
    if fs == [] then [] else [FieldPart(fs[0], types, depth)] + FieldParts(fs[1..], types, depth)
  }

  /** One entry: `f { nested }` for an OBJECT whose type is found, the bare name otherwise. */
  function FieldPart(f: FieldDef, types: seq<TypeDef>, depth: int): string
    requires depth <= 3 && f.ftype.Some? && SchemaTyped(types)
    decreases Levels(depth), 0
  {
    var last := LastLink(f.ftype.value);
    if last.kind != Object then f.name
    else match FindType(types, last.name)
      case Some(n) => f.name + " { " + FieldsBlock(n, types, depth + 1) + " }"
      case None => f.name
  }

  /** The loop of `build_fields_block`, recursing into nested object types. */
  method BuildFieldsBlock(t: TypeDef, types: seq<TypeDef>, depth: int) returns (r: string)
    requires FieldsTyped(t.fields) && SchemaTyped(types)
    ensures r == FieldsBlock(t, types, depth)
    decreases Levels(depth)
  {
    if depth > 3 {
      return "";
    }
    var parts: seq<string> := [];
    for i := 0 to |t.fields|
      invariant |parts| == i
      invariant forall k :: 0 <= k < i ==> parts[k] == FieldPart(t.fields[k], types, depth)
    {
      var f := t.fields[i];
      var ftype := f.ftype.value;
      while ftype.ofType.Some?
        invariant LastLink(ftype) == LastLink(f.ftype.value)
        decreases ftype
      {
        ftype := ftype.ofType.value;
      }
      if ftype.kind == Object {
        var nested := GetType(types, ftype.name);
        if nested.Some? {
          var inner := BuildFieldsBlock(nested.value, types, depth + 1);
          parts := parts + [f.name + " { " + inner + " }"];
        } else {
          parts := parts + [f.name];
        }
      } else {
        parts := parts + [f.name];
      }
    }
    assert parts == FieldParts(t.fields, types, depth);
    r := Join(parts, " ");
  }

  predicate NamedFields(fs: seq<FieldDef>)
  {
    forall f :: f in fs ==> IsName(f.name)
  }

  lemma NameNoBraces(s: string)
    requires IsName(s)
    ensures NoBraces(s)
  {
    forall i | 0 <= i < |s| ensures s[i] != '{' && s[i] != '}' {
      assert NameChar(s[i]);
    }
  }

  /** The block is balanced and never nests deeper than the levels left at `depth`. */
  lemma {:induction false} FieldsBlockNested(t: TypeDef, types: seq<TypeDef>, depth: int)
    requires FieldsTyped(t.fields) && SchemaTyped(types) && WellNamed(types) && NamedFields(t.fields)
    ensures Nested(FieldsBlock(t, types, depth), Levels(depth))
    decreases Levels(depth), 2
  {
    if depth > 3 {
      NestedPlain("", 0);
    } else {
      var parts := FieldParts(t.fields, types, depth);
      forall i | 0 <= i < |parts| ensures Nested(parts[i], Levels(depth)) {
        FieldPartNested(t.fields[i], types, depth);
      }
      NestedJoin(parts, " ", Levels(depth));
    }
  }

  lemma {:induction false} FieldPartNested(f: FieldDef, types: seq<TypeDef>, depth: int)
    requires depth <= 3 && f.ftype.Some? && SchemaTyped(types) && WellNamed(types) && IsName(f.name)
    ensures Nested(FieldPart(f, types, depth), Levels(depth))
    decreases Levels(depth), 0
  {
    NameNoBraces(f.name);
    var last := LastLink(f.ftype.value);
    if last.kind == Object && FindType(types, last.name).Some? {
      var n := FindType(types, last.name).value;
      FieldsBlockNested(n, types, depth + 1);
      NestedBlock(f.name, FieldsBlock(n, types, depth + 1), Levels(depth + 1));
    } else {
      NestedPlain(f.name, Levels(depth));
    }
  }

  /** An OBJECT field met at depth 3 gets an empty selection: `f {  }`. */
  lemma ObjectAtDepthThree(f: FieldDef, types: seq<TypeDef>)
    requires f.ftype.Some? && SchemaTyped(types)
    requires LastLink(f.ftype.value).kind == Object && FindType(types, LastLink(f.ftype.value).name).Some?
    ensures FieldPart(f, types, 3) == f.name + " {  }"
  {
    var n := FindType(types, LastLink(f.ftype.value).name).value;
    assert FieldsBlock(n, types, 4) == "";
  }

  // ------------------------------------------------------------- PII fields

  // The 51 PII keywords, in source order, held in groups of ten so that indexing stays cheap.
  const PiiKeywords1: seq<string> := ["email", "phone", "telephone", "mobile", "fax", "cc", "creditcard", "cardnumber", "card", "payment"]
  const PiiKeywords2: seq<string> := ["ssn", "socialsecurity", "taxid", "tin", "nationalid", "address", "street", "city", "zip", "postal"]
  const PiiKeywords3: seq<string> := ["name", "firstname", "lastname", "middlename", "fullname", "birthdate", "dob", "dateofbirth", "birthday", "age"]
  const PiiKeywords4: seq<string> := ["passport", "driverlicense", "license", "idnumber", "govtid", "bankaccount", "iban", "accountnumber", "routing", "swift"]
  const PiiKeywords5: seq<string> := ["username", "login", "password", "token", "session", "ipaddress", "deviceid", "macaddress", "biometric", "health"]
  const PiiKeywords6: seq<string> := ["social"]
  const PiiKeywords: seq<string> := PiiKeywords1 + PiiKeywords2 + PiiKeywords3 + PiiKeywords4 + PiiKeywords5 + PiiKeywords6

  /** Some keyword occurs in the lower-cased field name. */
  predicate IsPiiName(name: string)
  {
    MatchesAny(Lower(name), PiiKeywords)
  }

  /** Some keyword of `ks` occurs in `s`, tried in order. */
  predicate MatchesAny(s: string, ks: seq<string>)
    decreases |ks|
  {
    |ks| > 0 && (Contains(s, ks[0]) || MatchesAny(s, ks[1..]))
  }

  lemma {:induction false} MatchesAnyIff(s: string, ks: seq<string>)
    ensures MatchesAny(s, ks) <==> exists k :: k in ks && Contains(s, k)
    decreases |ks|
  {
    if |ks| > 0 {
      MatchesAnyIff(s, ks[1..]);
      assert forall k :: k in ks <==> k == ks[0] || k in ks[1..];
    }
  }

  /** A suspicious field: its type's name, its own name and its type reference. */
  datatype PiiField = PiiField(typeName: string, field: string, fieldType: TypeRef)

  /** Every suspicious field carries its type (Python reads `f["type"]` for it). */
  predicate PiiTyped(fs: seq<FieldDef>)
  {
    forall i :: 0 <= i < |fs| && IsPiiName(fs[i].name) ==> fs[i].ftype.Some?
  }

  predicate SchemaPiiTyped(types: seq<TypeDef>)
  {
    forall i :: 0 <= i < |types| ==> PiiTyped(types[i].fields)
  }

  /** The suspicious fields of one type, in field order. */
  function TypePii(typeName: string, fs: seq<FieldDef>): seq<PiiField>
    requires PiiTyped(fs)
  {
    if fs == [] then []
    else
      var n := |fs| - 1;
      var f := fs[n];
      TypePii(typeName, fs[..n]) + (if IsPiiName(f.name) then [PiiField(typeName, f.name, f.ftype.value)] else [])
  }

  /** The suspicious fields of the schema, type by type. */
  function PiiFields(types: seq<TypeDef>): seq<PiiField>
    requires SchemaPiiTyped(types)
  {
    if types == [] then []
    else
      var n := |types| - 1;
      PiiFields(types[..n]) + TypePii(types[n].name, types[n].fields)
  }

  /** `find_pii_fields`. */
  method FindPiiFields(types: seq<TypeDef>) returns (pii: seq<PiiField>)
    requires SchemaPiiTyped(types)
    ensures pii == PiiFields(types)
  {
    pii := [];
    for i := 0 to |types|
      invariant pii == PiiFields(types[..i])
    {
      var t := types[i];
      assert types[..i + 1][..i] == types[..i];
      for j := 0 to |t.fields|
        invariant pii == PiiFields(types[..i]) + TypePii(t.name, t.fields[..j])
      {
        var f := t.fields[j];
        assert t.fields[..j + 1][..j] == t.fields[..j];
        if IsPiiName(f.name) {
          pii := pii + [PiiField(t.name, f.name, f.ftype.value)];
        }
      }
      assert t.fields[..|t.fields|] == t.fields;
    }
    assert types[..|types|] == types;
  }

  /** A field is reported exactly when its name matches a keyword, with its type's name and its own type. */
  lemma {:induction false} TypePiiIff(typeName: string, fs: seq<FieldDef>, p: PiiField)
    requires PiiTyped(fs)
    ensures p in TypePii(typeName, fs)
        <==> exists f :: f in fs && IsPiiName(f.name) && p == PiiField(typeName, f.name, f.ftype.value)
  {
    if fs != [] {
      var n := |fs| - 1;
      TypePiiIff(typeName, fs[..n], p);
      assert fs == fs[..n] + [fs[n]];
    }
  }

  /** Every reported entry is a keyword-matching field of some type, and every such field is reported. */
  lemma {:induction false} PiiFieldsIff(types: seq<TypeDef>, p: PiiField)
    requires SchemaPiiTyped(types)
    ensures p in PiiFields(types)
        <==> exists t, f :: t in types && f in t.fields && IsPiiName(f.name)
                            && p == PiiField(t.name, f.name, f.ftype.value)
  {
    if types != [] {
      var n := |types| - 1;
      var front := types[..n];
      PiiFieldsIff(front, p);
      TypePiiIff(types[n].name, types[n].fields, p);
      assert types == front + [types[n]];
      assert p in PiiFields(types) <==> p in PiiFields(front) || p in TypePii(types[n].name, types[n].fields);
    }
  }

  /** How many fields of `fs` have a keyword-matching name, counted front to back. */
  function MatchCount(fs: seq<FieldDef>): nat
  {
    if fs == [] then 0 else (if IsPiiName(fs[0].name) then 1 else 0) + MatchCount(fs[1..])
  }

  /** How many keyword-matching fields the schema declares, type by type. */
  function SchemaMatchCount(types: seq<TypeDef>): nat
  {
    if types == [] then 0 else MatchCount(types[0].fields) + SchemaMatchCount(types[1..])
  }

  lemma {:induction false} MatchCountAppend(a: seq<FieldDef>, b: seq<FieldDef>)
    ensures MatchCount(a + b) == MatchCount(a) + MatchCount(b)
    decreases |a|
  {
    if a != [] {
      assert (a + b)[1..] == a[1..] + b;
      MatchCountAppend(a[1..], b);
    } else {
      assert a + b == b;
    }
  }

  lemma {:induction false} SchemaMatchCountAppend(a: seq<TypeDef>, b: seq<TypeDef>)
    ensures SchemaMatchCount(a + b) == SchemaMatchCount(a) + SchemaMatchCount(b)
    decreases |a|
  {
    if a != [] {
      assert (a + b)[1..] == a[1..] + b;
      SchemaMatchCountAppend(a[1..], b);
    } else {
      assert a + b == b;
    }
  }

  /** A type reports exactly one entry per keyword-matching field. */
  lemma {:induction false} TypePiiCount(typeName: string, fs: seq<FieldDef>)
    requires PiiTyped(fs)
    ensures |TypePii(typeName, fs)| == MatchCount(fs)
  {
    if fs != [] {
      var n := |fs| - 1;
      TypePiiCount(typeName, fs[..n]);
      assert fs == fs[..n] + [fs[n]];
      MatchCountAppend(fs[..n], [fs[n]]);
    }
  }

  /** The report holds exactly one entry per keyword-matching field of the schema. */
  lemma {:induction false} PiiFieldsCount(types: seq<TypeDef>)
    requires SchemaPiiTyped(types)
    ensures |PiiFields(types)| == SchemaMatchCount(types)
  {
    if types != [] {
      var n := |types| - 1;
      PiiFieldsCount(types[..n]);
      TypePiiCount(types[n].name, types[n].fields);
      assert types == types[..n] + [types[n]];
      SchemaMatchCountAppend(types[..n], [types[n]]);
    }
  }

  /** Entries keep schema order: the report for a concatenation is the concatenation of reports. */
  lemma {:induction false} PiiFieldsAppend(a: seq<TypeDef>, b: seq<TypeDef>)
    requires SchemaPiiTyped(a) && SchemaPiiTyped(b)
    ensures SchemaPiiTyped(a + b)
    ensures PiiFields(a + b) == PiiFields(a) + PiiFields(b)
    decreases |b|
  {
    PiiTypedAppend(a, b);
    if b == [] {
      assert a + b == a;
    } else {
      var n := |b| - 1;
      var ab := a + b;
      var front := b[..n];
      PiiTypedAppend(front, [b[n]]);
      assert front + [b[n]] == b;
      PiiFieldsAppend(a, front);
      assert ab[..|ab| - 1] == a + front;
      assert ab[|ab| - 1] == b[n];
      var last := TypePii(b[n].name, b[n].fields);
      assert PiiFields(ab) == PiiFields(a + front) + last;
      assert PiiFields(b) == PiiFields(front) + last;
    }
  }

  lemma PiiTypedAppend(a: seq<TypeDef>, b: seq<TypeDef>)
    ensures SchemaPiiTyped(a + b) <==> SchemaPiiTyped(a) && SchemaPiiTyped(b)
  {
    var ab := a + b;
    if SchemaPiiTyped(ab) {
      forall i | 0 <= i < |a| ensures PiiTyped(a[i].fields) {
        assert ab[i] == a[i];
      }
      forall i | 0 <= i < |b| ensures PiiTyped(b[i].fields) {
        assert ab[|a| + i] == b[i];
      }
    }
  }


  /** A name that starts with a lower-case keyword matches it. */
  lemma LowerPrefixMatches(name: string, k: string)
    requires |k| <= |name| && name[..|k|] == k
    requires forall i :: 0 <= i < |k| ==> 'a' <= k[i] <= 'z'
    ensures Contains(Lower(name), k)
  {
    var l := Lower(name);
    forall i | 0 <= i < |k| ensures l[i] == k[i] {
      assert name[i] == k[i];
    }
    assert l[..|k|] == k;
    assert OccursAt(l, k, 0);
  }

  /** A field called `emailAddress` is reported. */
  lemma EmailAddressIsPii()
    ensures IsPiiName("emailAddress")
  {
    var name := "emailAddress";
    var k := PiiKeywords1[0];
    assert k == "email";
    assert name[..5] == k;
    LowerPrefixMatches(name, k);
    assert PiiKeywords[0] == k;
    MatchesAnyIff(Lower(name), PiiKeywords);
  }

  // ----------------------------------------------------------- generate_poc

  /**
   * `generate_poc`: `{ f { block } }` when the field's named type is found with
   * fields, `{ f }` otherwise; no arguments are ever passed.
   */
  function GeneratePoc(p: PiiField, types: seq<TypeDef>): string
    requires SchemaTyped(types)
  {
    match FindType(types, NamedTypeName(p.fieldType))
    case Some(t) =>
      if |t.fields| > 0 then "{ " + p.field + " { " + FieldsBlock(t, types, 0) + " } }"
      else "{ " + p.field + " }"
    case None => "{ " + p.field + " }"
  }

  /** Letters, digits, underscores, spaces and braces: the alphabet of a selection without arguments. */
  predicate SelectionText(s: string)
  {
    forall i :: 0 <= i < |s| ==> NameChar(s[i]) || s[i] == ' ' || s[i] == '{' || s[i] == '}'
  }

  lemma SelectionTextConcat(a: string, b: string)
    requires SelectionText(a) && SelectionText(b)
    ensures SelectionText(a + b)
  {
    forall i | 0 <= i < |a + b| ensures NameChar((a + b)[i]) || (a + b)[i] in " {}" {
      if i >= |a| {
        assert (a + b)[i] == b[i - |a|];
      }
    }
  }

  lemma {:induction false} SelectionTextJoin(parts: seq<string>, sep: string)
    requires forall i :: 0 <= i < |parts| ==> SelectionText(parts[i])
    requires SelectionText(sep)
    ensures SelectionText(Join(parts, sep))
  {
    if |parts| > 1 {
      SelectionTextJoin(parts[1..], sep);
      SelectionTextConcat(parts[0], sep);
      SelectionTextConcat(parts[0] + sep, Join(parts[1..], sep));
    }
  }

  lemma {:induction false} FieldsBlockText(t: TypeDef, types: seq<TypeDef>, depth: int)
    requires FieldsTyped(t.fields) && SchemaTyped(types) && WellNamed(types) && NamedFields(t.fields)
    ensures SelectionText(FieldsBlock(t, types, depth))
    decreases Levels(depth), 2
  {
    if depth <= 3 {
      var parts := FieldParts(t.fields, types, depth);
      forall i | 0 <= i < |parts| ensures SelectionText(parts[i]) {
        FieldPartText(t.fields[i], types, depth);
      }
      SelectionTextJoin(parts, " ");
    }
  }

  lemma {:induction false} FieldPartText(f: FieldDef, types: seq<TypeDef>, depth: int)
    requires depth <= 3 && f.ftype.Some? && SchemaTyped(types) && WellNamed(types) && IsName(f.name)
    ensures SelectionText(FieldPart(f, types, depth))
    decreases Levels(depth), 0
  {
    var last := LastLink(f.ftype.value);
    if last.kind == Object && FindType(types, last.name).Some? {
      var n := FindType(types, last.name).value;
      FieldsBlockText(n, types, depth + 1);
      SelectionTextConcat(f.name, " { ");
      SelectionTextConcat(f.name + " { ", FieldsBlock(n, types, depth + 1));
      SelectionTextConcat(f.name + " { " + FieldsBlock(n, types, depth + 1), " }");
    }
  }

  /** Wrapping a selection in `{ ` and ` }` keeps its alphabet and adds one level. */
  lemma WrapShape(inner: string, n: nat)
    requires SelectionText(inner) && Nested(inner, n)
    ensures SelectionText("{ " + inner + " }")
    ensures Nested("{ " + inner + " }", n + 1)
  {
    SelectionTextConcat("{ ", inner);
    SelectionTextConcat("{ " + inner, " }");
    NestedPlain(" ", n);
    NestedConcat(" ", inner, n);
    NestedConcat(" " + inner, " ", n);
    NestedWrap(" " + inner + " ", n);
    assert "{" + (" " + inner + " ") + "}" == "{ " + inner + " }";
  }

  /** `f { block }` for a field name and a selection block. */
  lemma BlockShape(name: string, block: string, n: nat)
    requires IsName(name) && SelectionText(block) && Nested(block, n)
    ensures SelectionText(name + " { " + block + " }")
    ensures Nested(name + " { " + block + " }", n + 1)
  {
    NameNoBraces(name);
    SelectionTextConcat(name, " { ");
    SelectionTextConcat(name + " { ", block);
    SelectionTextConcat(name + " { " + block, " }");
    NestedBlock(name, block, n);
  }

  lemma NameShape(name: string)
    requires IsName(name)
    ensures SelectionText(name) && Nested(name, 0)
  {
    NameNoBraces(name);
    NestedPlain(name, 0);
  }

  /** Text over the selection alphabet carries no argument list. */
  lemma SelectionHasNoArguments(s: string)
    requires SelectionText(s)
    ensures '(' !in s && ':' !in s
  {
    forall i | 0 <= i < |s| ensures s[i] != '(' && s[i] != ':' {
      assert NameChar(s[i]) || s[i] == ' ' || s[i] == '{' || s[i] == '}';
    }
  }

  lemma PocSelectionShape(p: PiiField, types: seq<TypeDef>)
    requires SchemaTyped(types) && WellNamed(types) && IsName(p.field)
    ensures SelectionText(GeneratePoc(p, types)) && Nested(GeneratePoc(p, types), 6)
  {
    var found := FindType(types, NamedTypeName(p.fieldType));
    if found.Some? && |found.value.fields| > 0 {
      PocBlockShape(p.field, found.value, types);
    } else {
      PocBareShape(p.field);
    }
  }

  lemma PocBlockShape(field: string, t: TypeDef, types: seq<TypeDef>)
    requires SchemaTyped(types) && WellNamed(types) && IsName(field) && t in types
    ensures var poc := "{ " + field + " { " + FieldsBlock(t, types, 0) + " } }";
      SelectionText(poc) && Nested(poc, 6)
  {
    var block := FieldsBlock(t, types, 0);
    NameShape(field);
    FieldsBlockText(t, types, 0);
    FieldsBlockNested(t, types, 0);
    BlockShape(field, block, 4);
    var inner := field + " { " + block + " }";
    WrapShape(inner, 5);
    assert " } }" == " }" + " }";
    assert "{ " + field + " { " + block + " } }" == "{ " + inner + " }";
  }

  lemma PocBareShape(field: string)
    requires IsName(field)
    ensures SelectionText("{ " + field + " }") && Nested("{ " + field + " }", 6)
  {
    NameShape(field);
    WrapShape(field, 0);
    NestedWeaken("{ " + field + " }", 1, 6);
  }

  /**
   * A proof-of-concept query passes no arguments (no parenthesis or colon
   * anywhere), is balanced, and nests at most six braces deep.
   */
  lemma PocShape(p: PiiField, types: seq<TypeDef>)
    requires SchemaTyped(types) && WellNamed(types) && IsName(p.field)
    ensures SelectionText(GeneratePoc(p, types))
    ensures '(' !in GeneratePoc(p, types) && ':' !in GeneratePoc(p, types)
    ensures Nested(GeneratePoc(p, types), 6)
  {
    PocSelectionShape(p, types);
    SelectionHasNoArguments(GeneratePoc(p, types));
  }

  // ----------------------------------------------------------- guess_values

  /** One entry of the table of common argument values: a name fragment and its values. */
  datatype Common = Common(key: string, values: seq<string>)

  /** The table of common values, in insertion order (the order `guess_values` tries the keys). */
  const CommonValues: seq<Common> := [
    Common("id", ["1", "2", "me", "current", "admin"]),
    Common("user", ["1", "me", "admin"]),
    Common("status", ["active", "pending", "open"]),
    Common("limit", ["1", "5", "10"]),
    Common("page", ["1", "2"]),
    Common("email", ["test@example.com"]),
    Common("name", ["test"]),
    Common("retail", ["store", "shop", "item"]),
    Common("fintech", ["account", "balance", "transaction"]),
    Common("warehouse", ["stock", "inventory", "location"]),
    Common("logistics", ["shipment", "tracking", "route"]),
    Common("transport", ["vehicle", "driver", "route"])
  ]

  /** Keys tried before position `k` all miss the lower-cased name. */
  predicate MissesBefore(lowered: string, k: int)
    requires 0 <= k <= |CommonValues|
  {
    forall m :: 0 <= m < k ==> !Contains(lowered, CommonValues[m].key)
  }

  function GuessFrom(lowered: string, i: nat): (r: seq<string>)
    requires i <= |CommonValues|
    ensures |r| >= 1
    ensures forall k :: (i <= k < |CommonValues| && Contains(lowered, CommonValues[k].key)
                           && forall m :: i <= m < k ==> !Contains(lowered, CommonValues[m].key))
                        ==> r == CommonValues[k].values
    ensures (forall k :: i <= k < |CommonValues| ==> !Contains(lowered, CommonValues[k].key)) ==> r == ["1"]
    decreases |CommonValues| - i
  {
    if i == |CommonValues| then ["1"]
    else if Contains(lowered, CommonValues[i].key) then CommonValues[i].values
    else GuessFrom(lowered, i + 1)
  }

  /**
   * `guess_values`: the values of the first key (in table order) found in the
   * lower-cased parameter name, `["1"]` when none is; never empty.
   */
  function Guess(param: string): (r: seq<string>)
    ensures |r| >= 1
    ensures forall k :: (0 <= k < |CommonValues| && Contains(Lower(param), CommonValues[k].key)
                           && MissesBefore(Lower(param), k)) ==> r == CommonValues[k].values
    ensures MissesBefore(Lower(param), |CommonValues|) ==> r == ["1"]
  {
    GuessFrom(Lower(param), 0)
  }

  /** The linear search of `guess_values`. */
  method GuessValues(param: string) returns (r: seq<string>)
    ensures r == Guess(param)
  {
    var lowered := Lower(param);
    for k := 0 to |CommonValues|
      invariant MissesBefore(lowered, k)
    {
      if Contains(lowered, CommonValues[k].key) {
        return CommonValues[k].values;
      }
    }
    return ["1"];
  }

  /** `userId` gets the `id` values: `id` is tried before `user`. */
  lemma UserIdGuess()
    ensures Guess("userId") == ["1", "2", "me", "current", "admin"]
  {
    var l := Lower("userId");
    assert l[4] == 'i' && l[5] == 'd';
    assert l[4..6] == "id";
    assert OccursAt(l, "id", 4);
    assert CommonValues[0].key == "id";
  }

  lemma {:induction false} CommonValuesPlain()
    ensures forall k, j :: 0 <= k < |CommonValues| && 0 <= j < |CommonValues[k].values|
              ==> PlainString(CommonValues[k].values[j])
  {
    forall k, j | 0 <= k < |CommonValues| && 0 <= j < |CommonValues[k].values|
      ensures PlainString(CommonValues[k].values[j])
    {
      var v := CommonValues[k].values[j];
      forall i | 0 <= i < |v| ensures JsonPlain(v[i]) {
        assert ('a' <= v[i] <= 'z') || ('0' <= v[i] <= '9') || v[i] == '@' || v[i] == '.';
      }
    }
  }

  /** Every guessed value is plain printable ASCII, so `json.dumps` only adds the quotes. */
  lemma GuessPlain(param: string)
    ensures forall j :: 0 <= j < |Guess(param)| ==> PlainString(Guess(param)[j])
  {
    CommonValuesPlain();
    var l := Lower(param);
    if MissesBefore(l, |CommonValues|) {
      assert Guess(param) == ["1"];
      assert PlainString("1");
    } else {
      var k :| 0 <= k < |CommonValues| && Contains(l, CommonValues[k].key);
      while k > 0 && !MissesBefore(l, k)
        invariant 0 <= k < |CommonValues| && Contains(l, CommonValues[k].key)
        decreases k
      {
        var m :| 0 <= m < k && Contains(l, CommonValues[m].key);
        k := m;
      }
      assert Guess(param) == CommonValues[k].values;
    }
  }

  // ----------------------------------------------------- extract_operations

  /** A candidate operation: the field's name, its argument names, no return type name. */
  datatype Operation = Operation(name: string, args: seq<string>, typeName: Option<string>)

  function FieldOperations(fs: seq<FieldDef>): (r: seq<Operation>)
    ensures |r| == |fs|
    ensures forall j :: 0 <= j < |fs| ==> r[j] == Operation(fs[j].name, ArgNames(fs[j].args), None)
  {
    seq(|fs|, j requires 0 <= j < |fs| => Operation(fs[j].name, ArgNames(fs[j].args), None))
  }

  /** `extract_operations`: one operation per field of every type, in schema order. */
  function Operations(types: seq<TypeDef>): seq<Operation>
  {
    if types == [] then []
    else
      var n := |types| - 1;
      Operations(types[..n]) + FieldOperations(types[n].fields)
  }

  method ExtractOperations(types: seq<TypeDef>) returns (ops: seq<Operation>)
    ensures ops == Operations(types)
  {
    ops := [];
    for i := 0 to |types|
      invariant ops == Operations(types[..i])
    {
      var t := types[i];
      assert types[..i + 1][..i] == types[..i];
      if |t.fields| > 0 {
        ops := AppendFieldOperations(ops, t.fields);
      }
    }
    assert types[..|types|] == types;
  }

  /** The inner loop of `extract_operations` over one type's fields. */
  method AppendFieldOperations(ops0: seq<Operation>, fs: seq<FieldDef>) returns (ops: seq<Operation>)
    ensures ops == ops0 + FieldOperations(fs)
  {
    ops := ops0;
    for j := 0 to |fs|
      invariant ops == ops0 + FieldOperations(fs[..j])
    {
      var f := fs[j];
      assert FieldOperations(fs[..j + 1]) == FieldOperations(fs[..j]) + [Operation(f.name, ArgNames(f.args), None)];
      ops := ops + [Operation(f.name, ArgNames(f.args), None)];
    }
    assert fs[..|fs|] == fs;
  }

  /** Operations are exactly the fields of all types, with their argument names and no type name. */
  lemma {:induction false} OperationsIff(types: seq<TypeDef>, op: Operation)
    ensures op in Operations(types)
        <==> exists t, f :: t in types && f in t.fields && op == Operation(f.name, ArgNames(f.args), None)
  {
    if types != [] {
      var n := |types| - 1;
      var front := types[..n];
      OperationsIff(front, op);
      FieldOperationsIff(types[n].fields, op);
      assert types == front + [types[n]];
      assert op in Operations(types) <==> op in Operations(front) || op in FieldOperations(types[n].fields);
    }
  }

  lemma FieldOperationsIff(fs: seq<FieldDef>, op: Operation)
    ensures op in FieldOperations(fs) <==> exists f :: f in fs && op == Operation(f.name, ArgNames(f.args), None)
  {
    var ops := FieldOperations(fs);
    if op in ops {
      var j :| 0 <= j < |ops| && ops[j] == op;
      assert fs[j] in fs;
    }
    if exists f :: f in fs && op == Operation(f.name, ArgNames(f.args), None) {
      var f :| f in fs && op == Operation(f.name, ArgNames(f.args), None);
      var j :| 0 <= j < |fs| && fs[j] == f;
      assert ops[j] == op;
    }
  }

  /** The number of fields over all types. */
  function FieldCount(types: seq<TypeDef>): nat
  {
    if types == [] then 0 else FieldCount(types[..|types| - 1]) + |types[|types| - 1].fields|
  }

  /** One operation per field: the count matches and nothing is dropped or repeated. */
  lemma {:induction false} OperationsCount(types: seq<TypeDef>)
    ensures |Operations(types)| == FieldCount(types)
  {
    if types != [] {
      OperationsCount(types[..|types| - 1]);
    }
  }

  // ------------------------------------------------- get_fields_recursive

  /** Schema names a path has not visited yet: the measure that ends the recursion. */
  function Unvisited(types: seq<TypeDef>, visited: set<string>): nat
  {
    |TypeNames(types) - visited|
  }

  lemma VisitShrinks(types: seq<TypeDef>, visited: set<string>, name: string)
    requires name in TypeNames(types) && name !in visited
    ensures Unvisited(types, visited + {name}) < Unvisited(types, visited)
  {
    var after := TypeNames(types) - (visited + {name});
    assert TypeNames(types) - visited == after + {name};
  }

  /** Some type record carries this name (`any(t["name"] == n ...)`). */
  predicate Listed(types: seq<TypeDef>, n: string)
  {
    exists i :: 0 <= i < |types| && types[i].name == n
  }

  lemma ListedName(types: seq<TypeDef>, n: string)
    requires Listed(types, n)
    ensures n in TypeNames(types)
  {
    var i :| 0 <= i < |types| && types[i].name == n;
    assert types[i] in types;
  }

  /**
   * `get_fields_recursive`: the entries for a type's fields, or `["__typename"]`
   * for an empty, already visited, unknown or fieldless type name.
   */
  function FieldsRec(name: string, types: seq<TypeDef>, visited: set<string>): (r: seq<string>)
    requires SchemaTyped(types)
    ensures |r| >= 1
    decreases Unvisited(types, visited), 0
  {
    if name == "" || name in visited then ["__typename"]
    else match FindType(types, Some(name))
      case None => ["__typename"]
      case Some(obj) =>
        if obj.fields == [] then ["__typename"]
        else
          VisitShrinks(types, visited, name);
          FieldEntries(obj.fields, types, visited + {name})
  }

  function FieldEntries(fs: seq<FieldDef>, types: seq<TypeDef>, visited: set<string>): (r: seq<string>)
    requires FieldsTyped(fs) && SchemaTyped(types)
    ensures |r| == |fs|
    ensures forall j :: 0 <= j < |fs| ==> r[j] == FieldEntry(fs[j], types, visited)
    decreases Unvisited(types, visited), 2, |fs|
  {
    if fs == [] then [] else [FieldEntry(fs[0], types, visited)] + FieldEntries(fs[1..], types, visited)
  }

  /** A field whose named type is listed is wrapped around that type's entries (scalars included). */
  function FieldEntry(f: FieldDef, types: seq<TypeDef>, visited: set<string>): string
    requires f.ftype.Some? && SchemaTyped(types)
    decreases Unvisited(types, visited), 1
  {
    var n := NamedTypeName(f.ftype.value);
    if n.Some? && n.value != "" && Listed(types, n.value) then
      f.name + " { " + Join(FieldsRec(n.value, types, visited), " ") + " }"
    else f.name
  }

  /** The recursion of `get_fields_recursive`; each child gets its own copy of the visited set. */
  method GetFieldsRecursive(name: string, types: seq<TypeDef>, visited: set<string>) returns (r: seq<string>)
    requires SchemaTyped(types)
    ensures r == FieldsRec(name, types, visited)
    decreases Unvisited(types, visited)
  {
    if name in visited || name == "" {
      return ["__typename"];
    }
    var seen := visited + {name};
    var obj := GetType(types, Some(name));
    if obj.None? || |obj.value.fields| == 0 {
      return ["__typename"];
    }
    VisitShrinks(types, visited, name);
    var fs := obj.value.fields;
    ghost var want := FieldEntries(fs, types, seen);
    assert FieldsRec(name, types, visited) == want;
    r := [];
    for j := 0 to |fs|
      invariant r == want[..j]
    {
      var f := fs[j];
      var nested := GetNamedType(f.ftype.value);
      var entry := f.name;
      if nested.Some? && nested.value != "" && Listed(types, nested.value) {
        ListedName(types, nested.value);
        var inner := GetFieldsRecursive(nested.value, types, seen);
        entry := f.name + " { " + Join(inner, " ") + " }";
      }
      assert entry == want[j];
      Lists.SliceExtend(want, j);
      r := r + [entry];
    }
    assert want[..|fs|] == want;
  }

  /**
   * A field is wrapped exactly when its named type is listed in the schema:
   * the entry is then `f { ... }`, otherwise the bare field name.
   */
  lemma EntryWrappedIffListed(f: FieldDef, types: seq<TypeDef>, visited: set<string>)
    requires f.ftype.Some? && SchemaTyped(types)
    ensures var n := NamedTypeName(f.ftype.value);
      var e := FieldEntry(f, types, visited);
      (n.Some? && n.value != "" && Listed(types, n.value)) <==> (e != f.name && StartsWith(e, f.name + " { "))
  {
    var n := NamedTypeName(f.ftype.value);
    var e := FieldEntry(f, types, visited);
    if n.Some? && n.value != "" && Listed(types, n.value) {
      var inner := Join(FieldsRec(n.value, types, visited), " ");
      assert e == (f.name + " { ") + (inner + " }");
      assert e[..|f.name + " { "|] == f.name + " { ";
    }
  }

  /**
   * No path repeats a type: a field of type `T` met inside `T` itself gets
   * only `__typename`.
   */
  lemma SelfReferenceCut(f: FieldDef, types: seq<TypeDef>, visited: set<string>, name: string)
    requires f.ftype.Some? && SchemaTyped(types)
    requires NamedTypeName(f.ftype.value) == Some(name) && name != "" && Listed(types, name)
    ensures FieldEntry(f, types, visited + {name}) == f.name + " { __typename }"
  {
    assert FieldsRec(name, types, visited + {name}) == ["__typename"];
    assert Join(["__typename"], " ") == "__typename";
  }

  /** Each entry nests no deeper than the number of schema names the path has not visited. */
  lemma {:induction false} FieldsRecNested(name: string, types: seq<TypeDef>, visited: set<string>)
    requires SchemaTyped(types) && WellNamed(types)
    ensures forall j :: 0 <= j < |FieldsRec(name, types, visited)| ==>
              Nested(FieldsRec(name, types, visited)[j], Unvisited(types, visited))
    decreases Unvisited(types, visited), 0
  {
    var r := FieldsRec(name, types, visited);
    if name == "" || name in visited || FindType(types, Some(name)).None? || FindType(types, Some(name)).value.fields == [] {
      assert r == ["__typename"];
      NameNoBraces("__typename");
      NestedPlain("__typename", Unvisited(types, visited));
    } else {
      var obj := FindType(types, Some(name)).value;
      VisitShrinks(types, visited, name);
      var seen := visited + {name};
      forall j | 0 <= j < |r| ensures Nested(r[j], Unvisited(types, visited)) {
        assert r[j] == FieldEntry(obj.fields[j], types, seen);
        FieldEntryNested(obj.fields[j], types, seen, obj);
        NestedWeaken(r[j], Unvisited(types, seen) + 1, Unvisited(types, visited));
      }
    }
  }

  lemma {:induction false} FieldEntryNested(f: FieldDef, types: seq<TypeDef>, visited: set<string>, owner: TypeDef)
    requires f.ftype.Some? && SchemaTyped(types) && WellNamed(types)
    requires owner in types && f in owner.fields
    ensures Nested(FieldEntry(f, types, visited), Unvisited(types, visited) + 1)
    decreases Unvisited(types, visited), 1
  {
    assert IsName(f.name);
    NameNoBraces(f.name);
    var n := NamedTypeName(f.ftype.value);
    if n.Some? && n.value != "" && Listed(types, n.value) {
      var entries := FieldsRec(n.value, types, visited);
      FieldsRecNested(n.value, types, visited);
      NestedPlain(" ", Unvisited(types, visited));
      NestedJoin(entries, " ", Unvisited(types, visited));
      NestedBlock(f.name, Join(entries, " "), Unvisited(types, visited));
    } else {
      NestedPlain(f.name, Unvisited(types, visited) + 1);
    }
  }

  // ------------------------------------------------ check_single_operation

  /** The first field of the given name. */
  function FirstFieldNamed(fs: seq<FieldDef>, name: string): (r: Option<FieldDef>)
    ensures r.Some? ==> r.value in fs && r.value.name == name
    ensures r.None? <==> forall j :: 0 <= j < |fs| ==> fs[j].name != name
    ensures forall j :: 0 <= j < |fs| && fs[j].name == name && (forall m :: 0 <= m < j ==> fs[m].name != name)
              ==> r == Some(fs[j])
  {
    if fs == [] then None
    else if fs[0].name == name then Some(fs[0])
    else FirstFieldNamed(fs[1..], name)
  }

  /** The named type of a field, `None` when it carries no type. */
  function FieldTypeName(f: FieldDef): Option<string>
  {
    if f.ftype.Some? then NamedTypeName(f.ftype.value) else None
  }

  /**
   * `op_type_name`: `break` leaves only the inner loop, so the last type that
   * has a field of this name decides, through its first such field.
   */
  function OpTypeName(types: seq<TypeDef>, opName: string): Option<string>
  {
    if types == [] then None
    else
      var n := |types| - 1;
      match FirstFieldNamed(types[n].fields, opName)
      case Some(f) => FieldTypeName(f)
      case None => OpTypeName(types[..n], opName)
  }

  /** The nested loops with their inner `break`. */
  method FindOpTypeName(types: seq<TypeDef>, opName: string) returns (r: Option<string>)
    ensures r == OpTypeName(types, opName)
  {
    r := None;
    for i := 0 to |types|
      invariant r == OpTypeName(types[..i], opName)
    {
      var t := types[i];
      assert types[..i + 1][..i] == types[..i];
      var j := 0;
      while j < |t.fields|
        invariant 0 <= j <= |t.fields|
        invariant forall m :: 0 <= m < j ==> t.fields[m].name != opName
      {
        var f := t.fields[j];
        if f.name == opName {
          if f.ftype.Some? {
            r := GetNamedType(f.ftype.value);
          } else {
            r := None;
          }
          break;
        }
        j := j + 1;
      }
    }
    assert types[..|types|] == types;
  }

  /** A type name can only come from a field that carries its type. */
  lemma {:induction false} OpTypeNameNeedsType(types: seq<TypeDef>, opName: string)
    ensures OpTypeName(types, opName).Some? ==> !SchemaUntyped(types)
  {
    if types != [] {
      var n := |types| - 1;
      OpTypeNameNeedsType(types[..n], opName);
      match FirstFieldNamed(types[n].fields, opName)
      case Some(f) =>
        assert types[n] in types;
      case None =>
        assert forall t :: t in types[..n] ==> t in types;
    }
  }

  /**
   * The last type (in schema order) with a field of this name decides, through
   * the first such field of that type; with no such field there is no type name.
   */
  lemma {:induction false} OpTypeNameLast(types: seq<TypeDef>, opName: string, i: int)
    requires 0 <= i < |types| && FirstFieldNamed(types[i].fields, opName).Some?
    requires forall j :: i < j < |types| ==> FirstFieldNamed(types[j].fields, opName).None?
    ensures OpTypeName(types, opName) == FieldTypeName(FirstFieldNamed(types[i].fields, opName).value)
  {
    var n := |types| - 1;
    if i < n {
      var front := types[..n];
      assert front[i] == types[i];
      assert forall j :: i < j < |front| ==> front[j] == types[j];
      OpTypeNameLast(front, opName, i);
      assert FirstFieldNamed(types[n].fields, opName).None?;
    }
  }

  lemma {:induction false} OpTypeNameAbsent(types: seq<TypeDef>, opName: string)
    requires forall j :: 0 <= j < |types| ==> FirstFieldNamed(types[j].fields, opName).None?
    ensures OpTypeName(types, opName).None?
  {
    if types != [] {
      OpTypeNameAbsent(types[..|types| - 1], opName);
    }
  }

  /** `name: value` for one argument, the value being its first guess as a JSON string. */
  function ArgString(a: string): string
  {
    a + ": " + JsonString(Guess(a)[0])
  }

  /** The `name: value` piece of each argument, in order. */
  function ArgStrings(args: seq<string>): (r: seq<string>)
    ensures |r| == |args|
    ensures forall j :: 0 <= j < |args| ==> r[j] == ArgString(args[j])
  {
    if args == [] then []
    else [ArgString(args[0])] + ArgStrings(args[1..])
  }

  /** `(a: "v", ...)`, or nothing when the operation takes no arguments. */
  function ArgBlock(args: seq<string>): string
  {
    if args == [] then "" else "(" + Join(ArgStrings(args), ", ") + ")"
  }

  /** Each argument is given its first guessed value between plain quotes. */
  lemma ArgStringsQuoted(args: seq<string>)
    ensures forall j :: 0 <= j < |args| ==> ArgStrings(args)[j] == args[j] + ": " + Quote(Guess(args[j])[0])
  {
    forall j | 0 <= j < |args| ensures ArgStrings(args)[j] == args[j] + ": " + Quote(Guess(args[j])[0]) {
      GuessPlain(args[j]);
      JsonStringPlain(Guess(args[j])[0]);
    }
  }

  /** The selection of an operation's return type, `{ e1 e2 ... }`, or "" when there is none. */
  function OperationBlock(types: seq<TypeDef>, opName: string): string
    requires SchemaTyped(types) || SchemaUntyped(types)
  {
    var tn := OpTypeName(types, opName);
    if tn.Some? && tn.value != "" then
      OpTypeNameNeedsType(types, opName);
      "{ " + Join(FieldsRec(tn.value, types, {}), " ") + " }"
    else ""
  }

  /**
   * The document `check_single_operation` posts: `{ op(args) block }`.
   * A schema is either fully typed or fully untyped: a partly typed one can
   * make `get_fields_recursive` index a missing `type`.
   */
  function OperationQuery(op: Operation, types: seq<TypeDef>): string
    requires SchemaTyped(types) || SchemaUntyped(types)
  {
    "{ " + op.name + ArgBlock(op.args) + " " + OperationBlock(types, op.name) + " }"
  }

  /** The argument loop of `check_single_operation`. */
  method BuildArgStrings(args: seq<string>) returns (r: seq<string>)
    ensures r == ArgStrings(args)
  {
    ghost var want := ArgStrings(args);
    r := [];
    for j := 0 to |args|
      invariant r == want[..j]
    {
      var values := GuessValues(args[j]);
      var piece := args[j] + ": " + JsonString(values[0]);
      assert piece == want[j];
      Lists.SliceExtend(want, j);
      r := r + [piece];
    }
    assert want[..|args|] == want;
  }

  /** The query building of `check_single_operation`. */
  method BuildOperationQuery(op: Operation, types: seq<TypeDef>) returns (q: string)
    requires SchemaTyped(types) || SchemaUntyped(types)
    ensures q == OperationQuery(op, types)
  {
    var argStrings := BuildArgStrings(op.args);
    var argBlock := if |argStrings| > 0 then "(" + Join(argStrings, ", ") + ")" else "";
    var opTypeName := FindOpTypeName(types, op.name);
    var fieldsBlock := "";
    if opTypeName.Some? && opTypeName.value != "" {
      OpTypeNameNeedsType(types, op.name);
      var fields := GetFieldsRecursive(opTypeName.value, types, {});
      fieldsBlock := "{ " + Join(fields, " ") + " }";
    }
    q := "{ " + op.name + argBlock + " " + fieldsBlock + " }";
  }

  /**
   * Without field types (the checker's own introspection does not ask for
   * them) every document is `{ op(args)  }`, with two spaces.
   */
  lemma UntypedQuery(op: Operation, types: seq<TypeDef>)
    requires SchemaUntyped(types)
    ensures OperationQuery(op, types) == "{ " + op.name + ArgBlock(op.args) + "  }"
  {
    OpTypeNameNeedsType(types, op.name);
    assert OperationBlock(types, op.name) == "";
  }

  lemma ArgBlockSingle(a: string)
    ensures ArgBlock([a]) == "(" + ArgString(a) + ")"
  {
    assert ArgStrings([a]) == [ArgString(a)];
  }

  /** A one-argument operation against an untyped schema is `{ op(a: "v")  }`. */
  lemma SingleArgQuery(name: string, a: string, types: seq<TypeDef>)
    requires SchemaUntyped(types)
    ensures OperationQuery(Operation(name, [a], None), types) == "{ " + name + "(" + ArgString(a) + ")" + "  }"
  {
    UntypedQuery(Operation(name, [a], None), types);
    ArgBlockSingle(a);
  }

  /** The argument `id` is sent as `id: "1"`. */
  lemma IdArgString()
    ensures ArgString("id") == "id" + ": " + Quote("1")
  {
    IdGuessedFirst();
    GuessPlain("id");
    JsonStringPlain("1");
  }

  lemma IdGuessedFirst()
    ensures Guess("id")[0] == "1"
  {
    var l := Lower("id");
    assert l == "id";
    assert OccursAt(l, "id", 0);
    assert CommonValues[0].key == "id";
  }

  // ------------------------------------------------------------- success

  /**
   * A probe counts only with status 200, a content type (absent reads as "")
   * naming JSON or plain text in any case, a non-blank body, and no `errors`
   * anywhere in the body.
   */
  predicate ProbeSucceeded(status: int, contentType: Option<string>, body: string)
  {
    var ctype := Lower(if contentType.Some? then contentType.value else "");
    status == 200
    && (Contains(ctype, "application/json") || Contains(ctype, "text/plain"))
    && !IsBlank(body)
    && !Contains(body, "errors")
  }

  /** The content-type part is the content-type predicate, a missing header failing it. */
  lemma ProbeSucceededIff(status: int, contentType: Option<string>, body: string)
    ensures ProbeSucceeded(status, contentType, body)
        <==> status == 200 && IsValidContentType(contentType) && !IsBlank(body) && !Contains(body, "errors")
  {
    if contentType.None? {
      EmptyIsInvalid();
    }
  }

  /** A body reporting `errors` never counts, whatever the status and header. */
  lemma ErrorsNeverSucceed(status: int, contentType: Option<string>, a: string, b: string)
    ensures !ProbeSucceeded(status, contentType, a + "errors" + b)
  {
    ContainsOfConcat(a, "errors", b);
  }
}
