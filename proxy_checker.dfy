/**
 * The request synthesis of the proxy checker (`proxy_checker_v3.py`): for every
 * root field of the query and mutation types, a test value per argument, a
 * selection of the field's result, one document, and a retried POST whose
 * outcome becomes a result record.
 */
module ProxyChecker {

  import opened Wrappers
  import opened Text
  import opened Braces
  import opened Lists
  import opened Schema
  import opened Json

  // ---------------------------------------------------------------- unwrap_type

  /** Follows `ofType` through NON_NULL and LIST links while the next link was fetched. */
  method UnwrapType(t: TypeRef) returns (r: TypeRef)
    ensures r == BaseType(t)
    ensures !Unwraps(r)
  {
    r := t;
    while Unwraps(r)
      invariant BaseType(r) == BaseType(t)
      decreases r
    {
      r := r.ofType.value;
    }
  }

  // ------------------------------------------------------------------- values

  /** A JSON-like Python value: what the payload builder returns and the serializer accepts. */
  datatype Value =
    | Null
    | IntVal(i: int)
    | FloatVal(repr: string)   // a finite float, carried as Python's `repr` of it
    | BoolVal(b: bool)
    | StrVal(s: string)
    | ListVal(items: seq<Value>)
    | DictVal(entries: seq<Entry>)

  /** One key of a dictionary, in insertion order. */
  datatype Entry = Entry(key: string, val: Value)

  type Byte = b: int | 0 <= b < 256

  /** Sixteen random bytes with the version-4 and RFC 4122 variant bits set, as `uuid.uuid4()` draws. */
  predicate IsUuid4(bs: seq<Byte>)
  {
    |bs| == 16 && bs[6] / 16 == 4 && bs[8] / 64 == 2
  }

  type Uuid4 = bs: seq<Byte> | IsUuid4(bs) witness [0, 0, 0, 0, 0, 0, 64, 0, 128, 0, 0, 0, 0, 0, 0, 0]

  /** Two lower-case hex digits per byte. */
  function Hex(bs: seq<Byte>): (r: string)
    ensures |r| == 2 * |bs|
    ensures forall i :: 0 <= i < |r| ==> IsHexDigit(r[i])
  {
    if bs == [] then [] else [HexDigit(bs[0] / 16), HexDigit(bs[0] % 16)] + Hex(bs[1..])
  }

  /** Byte `k` is written high nibble first. */
  lemma {:induction false} HexAt(bs: seq<Byte>, k: int)
    requires 0 <= k < |bs|
    ensures Hex(bs)[2 * k] == HexDigit(bs[k] / 16) && Hex(bs)[2 * k + 1] == HexDigit(bs[k] % 16)
  {
    if k > 0 {
      HexAt(bs[1..], k - 1);
    }
  }

  /** `str(uuid)`: the 8-4-4-4-12 hex form of section 3 of RFC 4122. */
  function UuidText(u: Uuid4): string
  {
    Hex(u[..4]) + "-" + Hex(u[4..6]) + "-" + Hex(u[6..8]) + "-" + Hex(u[8..10]) + "-" + Hex(u[10..])
  }

  /**
   * The text of a version-4 UUID: 36 characters, dashes at 8, 13, 18 and 23,
   * lower-case hex elsewhere, version digit `4` and variant digit 8, 9, a or b.
   */
  lemma UuidTextShape(u: Uuid4)
    ensures |UuidText(u)| == 36
    ensures UuidText(u)[8] == UuidText(u)[13] == UuidText(u)[18] == UuidText(u)[23] == '-'
    ensures forall i :: 0 <= i < 36 && i != 8 && i != 13 && i != 18 && i != 23 ==> IsHexDigit(UuidText(u)[i])
    ensures UuidText(u)[14] == '4'
    ensures UuidText(u)[19] in "89ab"
  {
    var t := UuidText(u);
    var a, b, c, d, e := Hex(u[..4]), Hex(u[4..6]), Hex(u[6..8]), Hex(u[8..10]), Hex(u[10..]);
    assert t == a + "-" + b + "-" + c + "-" + d + "-" + e;
    forall i | 0 <= i < 36 && i != 8 && i != 13 && i != 18 && i != 23 ensures IsHexDigit(t[i]) {
      if i < 8 {
        assert t[i] == a[i];
      } else if i < 13 {
        assert t[i] == b[i - 9];
      } else if i < 18 {
        assert t[i] == c[i - 14];
      } else if i < 23 {
        assert t[i] == d[i - 19];
      } else {
        assert t[i] == e[i - 24];
      }
    }
    HexAt(u[6..8], 0);
    HexAt(u[8..10], 0);
    assert t[14] == c[0] == HexDigit(u[6] / 16);
    assert t[19] == d[0] == HexDigit(u[8] / 16);
    assert 8 <= u[8] / 16 <= 11;
  }

  // ------------------------------------------------------- build_test_payload

  predicate AnyIn(s: string, keywords: seq<string>)
  {
    exists k :: k in keywords && Contains(s, k)
  }

  predicate NameHas(name: Option<string>, word: string)
  {
    name.Some? && Contains(Lower(name.value), word)
  }

  const NumericWords: seq<string> := ["id", "number", "num", "count", "index", "position"]

  /**
   * The test value for one argument, chosen from its base type and its name;
   * `drawn` is the UUID the call would draw. Python indexes `arg["type"]`.
   */
  function BuildTestPayload(arg: ArgDef, types: seq<TypeDef>, drawn: Uuid4): Value
    requires arg.atype.Some?
  {
    var t := BaseType(arg.atype.value);
    if t.kind == Scalar then ScalarPayload(t.name, Lower(arg.name), drawn)
    else NamedPayload(t, types, Lower(arg.name), drawn)
  }

  /** The SCALAR branch; `an` is the lower-cased argument name. */
  function ScalarPayload(name: Option<string>, an: string, drawn: Uuid4): Value
  {
    if name == Some("Int") then IntVal(1)
    else if name == Some("Float") then FloatVal("1.1")
    else if name == Some("Boolean") then BoolVal(true)
    else if name == Some("ID") then
      if AnyIn(an, ["id", "uuid", "guid"]) then
        if Contains(an, "uuid") || Contains(an, "guid") then StrVal(UuidText(drawn)) else StrVal("123")
      else StrVal("test-id")
    else if AnyIn(an, NumericWords) then
      if Contains(an, "id") then StrVal("123") else IntVal(1)
    else StrVal("test")
  }

  /** Any other kind: hints in the type's name first, then ENUM, then hints in the argument's name. */
  function NamedPayload(t: TypeRef, types: seq<TypeDef>, an: string, drawn: Uuid4): Value
  {
    var name := t.name;
    if name == Some("Int") || NameHas(name, "int") then IntVal(1)
    else if name == Some("Float") || NameHas(name, "float") then FloatVal("1.1")
    else if name == Some("Boolean") || NameHas(name, "bool") then BoolVal(true)
    else if name == Some("ID") || NameHas(name, "id") then
      if Contains(an, "uuid") || Contains(an, "guid") then StrVal(UuidText(drawn)) else StrVal("123")
    else if t.kind == Enum then EnumPayload(types, name)
    else if AnyIn(an, NumericWords + ["order"]) then
      if Contains(an, "uuid") || Contains(an, "guid") then StrVal(UuidText(drawn))
      else if AnyIn(an, NumericWords + ["order"]) then IntVal(123)
      else StrVal("test")
    else StrVal("test")
  }

  /** The first declared value of the named enum, or the placeholder `UNKNOWN_ENUM`. */
  function EnumPayload(types: seq<TypeDef>, name: Option<string>): Value
  {
    match FindType(types, name)
    case Some(e) => if |e.enumValues| > 0 then StrVal(e.enumValues[0]) else StrVal("UNKNOWN_ENUM")
    case None => StrVal("UNKNOWN_ENUM")
  }

  /** The value `build_test_payload` gives a standard scalar type: 1, 1.1, True, or a string for ID. */
  predicate FitsScalar(name: string, v: Value)
  {
    match name
    case "Int" => v == IntVal(1)
    case "Float" => v == FloatVal("1.1")
    case "Boolean" => v == BoolVal(true)
    case "ID" => v.StrVal?
    case _ => true
  }

  /** For the standard scalars Int, Float and Boolean the value is 1, 1.1 or true; for ID it is a string. */
  lemma PayloadFitsStandardScalar(arg: ArgDef, types: seq<TypeDef>, drawn: Uuid4)
    requires arg.atype.Some?
    requires BaseType(arg.atype.value).kind == Scalar && BaseType(arg.atype.value).name.Some?
    ensures FitsScalar(BaseType(arg.atype.value).name.value, BuildTestPayload(arg, types, drawn))
  {
  }

  /** An ID argument whose name mentions uuid or guid receives a freshly drawn version-4 UUID text. */
  lemma PayloadUuidForIdArgument(arg: ArgDef, types: seq<TypeDef>, drawn: Uuid4)
    requires arg.atype.Some?
    requires BaseType(arg.atype.value) .kind == Scalar && BaseType(arg.atype.value).name == Some("ID")
    requires Contains(Lower(arg.name), "uuid") || Contains(Lower(arg.name), "guid")
    ensures BuildTestPayload(arg, types, drawn) == StrVal(UuidText(drawn))
    ensures |BuildTestPayload(arg, types, drawn).s| == 36 && BuildTestPayload(arg, types, drawn).s[14] == '4'
  {
    UuidTextShape(drawn);
  }

  /** NON_NULL and LIST wrappers do not change the value synthesized for an argument. */
  lemma PayloadIgnoresWrappers(name: string, k: Kind, t: TypeRef, types: seq<TypeDef>, drawn: Uuid4)
    requires IsWrapper(k)
    ensures BuildTestPayload(ArgDef(name, Some(TypeRef(k, None, Some(t)))), types, drawn)
         == BuildTestPayload(ArgDef(name, Some(t)), types, drawn)
  {
    BaseTypeOfWrapped(k, t);
  }

  /** The argument's name matters only up to letter case. */
  lemma PayloadIgnoresCase(name: string, t: TypeRef, types: seq<TypeDef>, drawn: Uuid4)
    ensures BuildTestPayload(ArgDef(Upper(name), Some(t)), types, drawn)
         == BuildTestPayload(ArgDef(name, Some(t)), types, drawn)
  {
    LowerOfUpper(name);
  }

  /** An enum argument gets the enum's first declared value when its type name hints at no other scalar. */
  lemma PayloadEnumIsDeclared(arg: ArgDef, types: seq<TypeDef>, drawn: Uuid4, e: TypeDef)
    requires arg.atype.Some?
    requires BaseType(arg.atype.value).kind == Enum
    requires FindType(types, BaseType(arg.atype.value).name) == Some(e) && |e.enumValues| > 0
    requires !NameHas(BaseType(arg.atype.value).name, "int") && !NameHas(BaseType(arg.atype.value).name, "float")
    requires !NameHas(BaseType(arg.atype.value).name, "bool") && !NameHas(BaseType(arg.atype.value).name, "id")
    ensures BuildTestPayload(arg, types, drawn) == StrVal(e.enumValues[0])
    ensures BuildTestPayload(arg, types, drawn).s in e.enumValues && e in types
  {
    var t := BaseType(arg.atype.value);
    assert NameHas(Some("Int"), "int") by {
      assert Lower("Int") == "int";
      ContainsSelf("int");
    }
    assert NameHas(Some("Float"), "float") by {
      assert Lower("Float") == "float";
      ContainsSelf("float");
    }
    assert NameHas(Some("Boolean"), "bool") by {
      assert Lower("Boolean") == "boolean" && OccursAt("boolean", "bool", 0);
    }
    assert NameHas(Some("ID"), "id") by {
      assert Lower("ID") == "id";
      ContainsSelf("id");
    }
    assert NamedPayload(t, types, Lower(arg.name), drawn) == EnumPayload(types, t.name);
  }

  // ---------------------------------------------------------- decimal texts

  function DigitChar(d: int): char
    requires 0 <= d < 10
  {
    "0123456789"[d]
  }

  predicate IsDigit(c: char)
  {
    '0' <= c <= '9'
  }

  /** Decimal digits of a natural number, without leading zeros. */
  function NatText(n: nat): (r: string)
    ensures |r| >= 1 && forall i :: 0 <= i < |r| ==> IsDigit(r[i])
    ensures r[0] == '0' ==> r == "0"
  {
    if n < 10 then [DigitChar(n)] else NatText(n / 10) + [DigitChar(n % 10)]
  }

  /** `str(i)` of a Python int. */
  function IntText(i: int): string
  {
    if i < 0 then "-" + NatText(-i) else NatText(i)
  }

  // ------------------------------------------------------ serialize_arg_value

  /** `str(v)` of a non-string, non-container value. */
  function PyStr(v: Value): string
    requires !v.StrVal? && !v.ListVal? && !v.DictVal?
  {
    match v
    case Null => "None"
    case IntVal(i) => IntText(i)
    case FloatVal(r) => r
    case BoolVal(b) => if b then "True" else "False"
  }

  /** `json.dumps(v)` with its default separators. */
  function JsonDumps(v: Value): string
    decreases v
  {
    match v
    case Null => "null"
    case IntVal(i) => IntText(i)
    case FloatVal(r) => r
    case BoolVal(b) => if b then "true" else "false"
    case StrVal(s) => JsonString(s)
    case ListVal(items) => "[" + Join(JsonItems(items), ", ") + "]"
    case DictVal(es) => "{" + Join(JsonMembers(es), ", ") + "}"
  }

  function JsonItems(items: seq<Value>): (r: seq<string>)
    ensures |r| == |items|
    decreases items
  {
    if items == [] then [] else [JsonDumps(items[0])] + JsonItems(items[1..])
  }

  function JsonMembers(es: seq<Entry>): (r: seq<string>)
    ensures |r| == |es|
    decreases es
  {
    if es == [] then [] else [JsonString(es[0].key) + ": " + JsonDumps(es[0].val)] + JsonMembers(es[1..])
  }

  /**
   * Inside a dictionary a string value is quoted as it is while any other value
   * goes through `json.dumps`; for plain strings the two quotings agree.
   */
  lemma DictQuotingAgrees(s: string)
    requires PlainString(s)
    ensures JsonDumps(StrVal(s)) == Quote(s)
  {
    JsonStringPlain(s);
  }

  /** A value `serialize_arg_value` accepts here: a list does not hold a list directly. */
  predicate Serializable(v: Value)
  {
    v.ListVal? ==> forall i :: 0 <= i < |v.items| ==> !v.items[i].ListVal?
  }

  /** The `k: v` pieces of a dictionary: a string quoted as it is, anything else as JSON. */
  function DictItems(es: seq<Entry>): (r: seq<string>)
    ensures |r| == |es|
  {
    if es == [] then []
    else
      var e := es[0];
      [e.key + ": " + (if e.val.StrVal? then Quote(e.val.s) else JsonDumps(e.val))] + DictItems(es[1..])
  }

  /** The items of a list: dictionaries serialized, strings quoted, anything else through `str`. */
  function ListItems(items: seq<Value>): (r: seq<string>)
    requires forall i :: 0 <= i < |items| ==> !items[i].ListVal?
    ensures |r| == |items|
  {
    if items == [] then []
    else
      var v := items[0];
      var piece :=
        if v.DictVal? then "{" + Join(DictItems(v.entries), ", ") + "}"
        else if v.StrVal? then Quote(v.s)
        else PyStr(v);
      [piece] + ListItems(items[1..])
  }

  /** `serialize_arg_value`: the GraphQL text of an argument value. */
  function Serialize(v: Value): string
    requires Serializable(v)
  {
    match v
    case DictVal(es) => "{" + Join(DictItems(es), ", ") + "}"
    case ListVal(items) => "[" + Join(ListItems(items), ", ") + "]"
    case StrVal(s) => Quote(s)
    case BoolVal(b) => if b then "true" else "false"
    case _ => PyStr(v)
  }

  // ------------------------------------------- GraphQL literal syntax (section 2.9)

  predicate AllDigits(s: string)
  {
    forall i :: 0 <= i < |s| ==> IsDigit(s[i])
  }

  /** IntValue: an optional minus sign, then `0` or digits without a leading zero. */
  predicate IsIntLiteral(s: string)
  {
    var d := if |s| > 0 && s[0] == '-' then s[1..] else s;
    |d| >= 1 && AllDigits(d) && (d[0] == '0' ==> |d| == 1)
  }

  /** FloatValue with a fractional part and no exponent. */
  predicate IsFractionLiteral(s: string)
  {
    exists k :: 0 <= k < |s| - 1 && IsIntLiteral(s[..k]) && s[k] == '.' && AllDigits(s[k + 1..])
  }

  /**
   * A character a StringValue may hold without an escape: a SourceCharacter
   * (tab or U+0020 to U+FFFF, section 2.1.1 of the GraphQL specification,
   * October 2021) other than a quote or a backslash.
   */
  predicate StringChar(c: char)
  {
    (c == '\t' || 0x20 <= c as int <= 0xFFFF) && c != '"' && c != '\\'
  }

  predicate IsPlainStringLiteral(s: string)
  {
    |s| >= 2 && s[0] == '"' && s[|s| - 1] == '"' && forall i :: 1 <= i < |s| - 1 ==> StringChar(s[i])
  }

  predicate IsScalarLiteral(s: string)
  {
    IsIntLiteral(s) || IsFractionLiteral(s) || s == "true" || s == "false" || IsPlainStringLiteral(s)
  }

  lemma IntTextIsLiteral(i: int)
    ensures IsIntLiteral(IntText(i))
  {
    if i < 0 {
      assert ("-" + NatText(-i))[1..] == NatText(-i);
    }
  }

  lemma QuotedIsStringLiteral(s: string)
    requires forall i :: 0 <= i < |s| ==> StringChar(s[i])
    ensures IsPlainStringLiteral(Quote(s))
  {
    var q := Quote(s);
    forall i | 1 <= i < |q| - 1 ensures StringChar(q[i]) {
      assert q[i] == s[i - 1];
    }
  }

  /** Every enum value of the schema is a GraphQL Name. */
  predicate EnumValuesNamed(types: seq<TypeDef>)
  {
    forall t, v :: t in types && v in t.enumValues ==> IsName(v)
  }

  /**
   * Every synthesized argument value serializes to an IntValue, FloatValue,
   * BooleanValue or StringValue of GraphQL: the text never breaks the document.
   */
  lemma PayloadSerializesToLiteral(arg: ArgDef, types: seq<TypeDef>, drawn: Uuid4)
    requires arg.atype.Some? && EnumValuesNamed(types)
    ensures Serializable(BuildTestPayload(arg, types, drawn))
    ensures IsScalarLiteral(Serialize(BuildTestPayload(arg, types, drawn)))
  {
    var t := BaseType(arg.atype.value);
    if t.kind == Scalar {
      ScalarPayloadShaped(t.name, Lower(arg.name), drawn);
    } else {
      NamedPayloadShaped(t, types, Lower(arg.name), drawn);
    }
    ShapedIsLiteral(BuildTestPayload(arg, types, drawn), drawn);
  }

  /** The values build_test_payload can produce, whatever the schema. */
  predicate PayloadShaped(v: Value, drawn: Uuid4)
  {
    v.IntVal? || v == FloatVal("1.1") || v.BoolVal?
    || (v.StrVal? && (v.s == UuidText(drawn) || v.s in ["123", "test-id", "test", "UNKNOWN_ENUM"] || IsName(v.s)))
  }

  lemma ScalarPayloadShaped(name: Option<string>, an: string, drawn: Uuid4)
    ensures PayloadShaped(ScalarPayload(name, an, drawn), drawn)
  {
  }

  lemma NamedPayloadShaped(t: TypeRef, types: seq<TypeDef>, an: string, drawn: Uuid4)
    requires EnumValuesNamed(types)
    ensures PayloadShaped(NamedPayload(t, types, an, drawn), drawn)
  {
    var e := FindType(types, t.name);
    if e.Some? && |e.value.enumValues| > 0 {
      assert e.value.enumValues[0] in e.value.enumValues;
    }
  }

  lemma ShapedIsLiteral(v: Value, drawn: Uuid4)
    requires PayloadShaped(v, drawn)
    ensures Serializable(v)
    ensures IsScalarLiteral(Serialize(v))
  {
    match v
    case IntVal(i) =>
      IntTextIsLiteral(i);
    case FloatVal(r) =>
      FractionLiteral();
    case BoolVal(b) =>
    case StrVal(s) =>
      ShapedStringIsLiteral(s, drawn);
  }

  lemma FractionLiteral()
    ensures IsFractionLiteral("1.1")
  {
    var r := "1.1";
    assert IsIntLiteral(r[..1]) && r[1] == '.' && AllDigits(r[2..]);
  }

  lemma ShapedStringIsLiteral(s: string, drawn: Uuid4)
    requires s == UuidText(drawn) || s in ["123", "test-id", "test", "UNKNOWN_ENUM"] || IsName(s)
    ensures IsPlainStringLiteral(Quote(s))
  {
    if s == UuidText(drawn) {
      UuidCharsPlain(drawn);
    } else if !IsName(s) {
      FixedWordsPlain(s);
    }
    QuotedIsStringLiteral(s);
  }

  lemma FixedWordsPlain(s: string)
    requires s in ["123", "test-id", "test", "UNKNOWN_ENUM"]
    ensures forall i :: 0 <= i < |s| ==> StringChar(s[i])
  {
    if s == "123" {
    } else if s == "test-id" {
    } else if s == "test" {
    } else {
      assert s == "UNKNOWN_ENUM";
    }
  }

  lemma UuidCharsPlain(u: Uuid4)
    ensures forall i :: 0 <= i < |UuidText(u)| ==> StringChar(UuidText(u)[i])
  {
    UuidTextShape(u);
    var t := UuidText(u);
    forall i | 0 <= i < |t| ensures StringChar(t[i]) {
      if i != 8 && i != 13 && i != 18 && i != 23 {
        assert IsHexDigit(t[i]);
      }
    }
  }

  // ------------------------------------------------------------ the argument dict

  function Keys(d: seq<Entry>): (r: seq<string>)
    ensures |r| == |d| && forall i :: 0 <= i < |d| ==> r[i] == d[i].key
  {
    if d == [] then [] else [d[0].key] + Keys(d[1..])
  }

  /** The value stored under `k`, if any. */
  function Lookup(d: seq<Entry>, k: string): Option<Value>
  {
    if d == [] then None else if d[0].key == k then Some(d[0].val) else Lookup(d[1..], k)
  }

  /** `d[k] = v`: an existing key keeps its place and takes the new value; a new key goes last. */
  function Put(d: seq<Entry>, k: string, v: Value): (r: seq<Entry>)
    ensures Keys(r) == if k in Keys(d) then Keys(d) else Keys(d) + [k]
    ensures Lookup(r, k) == Some(v)
    ensures forall k' :: k' != k ==> Lookup(r, k') == Lookup(d, k')
  {
    if d == [] then [Entry(k, v)]
    else if d[0].key == k then [Entry(k, v)] + d[1..]
    else
      var rest := Put(d[1..], k, v);
      var r := [d[0]] + rest;
      assert r[1..] == rest;
      assert Keys(r) == [d[0].key] + Keys(rest);
      assert Keys(d) == [d[0].key] + Keys(d[1..]);
      assert k in Keys(d) <==> k in Keys(d[1..]);
      r
  }

  predicate ArgsTyped(args: seq<ArgDef>)
  {
    forall i :: 0 <= i < |args| ==> args[i].atype.Some?
  }

  /** The payload built for each argument, with one UUID draw per argument. */
  function Payloads(args: seq<ArgDef>, types: seq<TypeDef>, draws: seq<Uuid4>): (r: seq<Value>)
    requires ArgsTyped(args) && |draws| == |args|
    ensures |r| == |args|
  {
    seq(|args|, i requires 0 <= i < |args| => BuildTestPayload(args[i], types, draws[i]))
  }

  /** Assigning `d[ks[i]] = vs[i]` for each `i` in turn, starting from an empty dict. */
  function PutAll(ks: seq<string>, vs: seq<Value>): seq<Entry>
    requires |ks| == |vs|
  {
    if ks == [] then []
    else
      var n := |ks| - 1;
      Put(PutAll(ks[..n], vs[..n]), ks[n], vs[n])
  }

  /** `{arg["name"]: build_test_payload(arg, types) for arg in args}`. */
  function ArgValues(args: seq<ArgDef>, types: seq<TypeDef>, draws: seq<Uuid4>): seq<Entry>
    requires ArgsTyped(args) && |draws| == |args|
  {
    PutAll(ArgNames(args), Payloads(args, types, draws))
  }

  /** The dict holds each key once, in order of first assignment. */
  lemma {:induction false} PutAllKeys(ks: seq<string>, vs: seq<Value>)
    requires |ks| == |vs|
    ensures Keys(PutAll(ks, vs)) == Dedup(ks)
  {
    if ks != [] {
      var n := |ks| - 1;
      PutAllKeys(ks[..n], vs[..n]);
    }
  }

  /** No later position repeats the key at `i`. */
  predicate LastAt(ks: seq<string>, i: int)
    requires 0 <= i < |ks|
  {
    forall j :: i < j < |ks| ==> ks[j] != ks[i]
  }

  /** Under a repeated key the dict keeps the value of the last assignment. */
  lemma {:induction false} PutAllLastWins(ks: seq<string>, vs: seq<Value>, i: int)
    requires |ks| == |vs| && 0 <= i < |ks| && LastAt(ks, i)
    ensures Lookup(PutAll(ks, vs), ks[i]) == Some(vs[i])
  {
    var n := |ks| - 1;
    var front, vfront := ks[..n], vs[..n];
    var prev := PutAll(front, vfront);
    assert PutAll(ks, vs) == Put(prev, ks[n], vs[n]);
    if i < n {
      assert front[i] == ks[i] && vfront[i] == vs[i];
      assert LastAt(front, i) by {
        forall j | i < j < |front| ensures front[j] != front[i] {
          assert front[j] == ks[j];
        }
      }
      PutAllLastWins(front, vfront, i);
      LookupPutOther(prev, ks[n], vs[n], ks[i]);
    }
  }

  lemma LookupPutOther(d: seq<Entry>, k: string, v: Value, k': string)
    requires k' != k
    ensures Lookup(Put(d, k, v), k') == Lookup(d, k')
  {
  }

  /** The dictionary holds each argument name once, in order of first appearance. */
  lemma ArgValuesKeys(args: seq<ArgDef>, types: seq<TypeDef>, draws: seq<Uuid4>)
    requires ArgsTyped(args) && |draws| == |args|
    ensures Keys(ArgValues(args, types, draws)) == Dedup(ArgNames(args))
  {
    PutAllKeys(ArgNames(args), Payloads(args, types, draws));
  }

  /** Under a repeated name the dictionary keeps the value of the last argument so named. */
  lemma ArgValuesLastWins(args: seq<ArgDef>, types: seq<TypeDef>, draws: seq<Uuid4>, i: int)
    requires ArgsTyped(args) && |draws| == |args|
    requires 0 <= i < |args| && forall j :: i < j < |args| ==> args[j].name != args[i].name
    ensures Lookup(ArgValues(args, types, draws), args[i].name) == Some(BuildTestPayload(args[i], types, draws[i]))
  {
    var ks := ArgNames(args);
    assert LastAt(ks, i) by {
      forall j | i < j < |ks| ensures ks[j] != ks[i] {
        assert args[j].name != args[i].name;
      }
    }
    PutAllLastWins(ks, Payloads(args, types, draws), i);
  }

  // ----------------------------------------------------- build_field_selection

  /** Levels of nesting still allowed below `depth`. */
  function Budget(depth: int, maxDepth: int): nat
  {
    if depth > maxDepth then 0 else maxDepth + 1 - depth
  }

  /** `build_field_selection`: the field's name followed by its selection set. */
  function Selection(f: FieldDef, types: seq<TypeDef>, depth: int, maxDepth: int): string
    requires f.ftype.Some? && SchemaTyped(types)
    decreases Budget(depth, maxDepth), 1
  {
    f.name + SelectionSet(f, types, depth, maxDepth)
  }

  /**
   * The ` { … }` part: present only for an OBJECT field within the depth bound
   * whose object type is found with fields.
   */
  function SelectionSet(f: FieldDef, types: seq<TypeDef>, depth: int, maxDepth: int): string
    requires f.ftype.Some? && SchemaTyped(types)
    decreases Budget(depth, maxDepth), 0
  {
    if depth > maxDepth then ""
    else
      var t := BaseType(f.ftype.value);
      if t.kind != Object then ""
      else match FindType(types, t.name)
        case None => ""
        case Some(obj) =>
          if |obj.fields| == 0 then ""
          else " { " + Join(SubSelections(obj.fields, types, depth + 1, maxDepth), " ") + " }"
  }

  function SubSelections(fs: seq<FieldDef>, types: seq<TypeDef>, depth: int, maxDepth: int): (r: seq<string>)
    requires FieldsTyped(fs) && SchemaTyped(types)
    ensures |r| == |fs|
    ensures forall i :: 0 <= i < |fs| ==> r[i] == Selection(fs[i], types, depth, maxDepth)
    decreases Budget(depth, maxDepth), 2, |fs|
  {
    if fs == [] then [] else [Selection(fs[0], types, depth, maxDepth)] + SubSelections(fs[1..], types, depth, maxDepth)
  }

  lemma NameNoBraces(s: string)
    requires IsName(s)
    ensures NoBraces(s)
  {
    forall i | 0 <= i < |s| ensures s[i] != '{' && s[i] != '}' {
      assert NameChar(s[i]);
    }
  }

  /**
   * The selection is balanced and nests at most one level per remaining depth
   * step: a selection built at depth 0 with `max_depth` 5 opens at most six braces.
   */
  lemma {:induction false} SelectionNested(f: FieldDef, types: seq<TypeDef>, depth: int, maxDepth: int)
    requires f.ftype.Some? && SchemaTyped(types) && WellNamed(types) && IsName(f.name)
    ensures Nested(Selection(f, types, depth, maxDepth), Budget(depth, maxDepth))
    decreases Budget(depth, maxDepth), 1
  {
    NameNoBraces(f.name);
    var b := Budget(depth, maxDepth);
    if SelectionSet(f, types, depth, maxDepth) == "" {
      assert Selection(f, types, depth, maxDepth) == f.name;
      NestedPlain(f.name, b);
    } else {
      var t := BaseType(f.ftype.value);
      var obj := FindType(types, t.name).value;
      var subs := SubSelections(obj.fields, types, depth + 1, maxDepth);
      SubSelectionsNested(obj.fields, types, depth + 1, maxDepth);
      NestedJoin(subs, " ", Budget(depth + 1, maxDepth));
      NestedBlock(f.name, Join(subs, " "), Budget(depth + 1, maxDepth));
      assert f.name + " { " + Join(subs, " ") + " }" == Selection(f, types, depth, maxDepth);
      NestedWeaken(Selection(f, types, depth, maxDepth), Budget(depth + 1, maxDepth) + 1, b);
    }
  }

  lemma {:induction false} SubSelectionsNested(fs: seq<FieldDef>, types: seq<TypeDef>, depth: int, maxDepth: int)
    requires FieldsTyped(fs) && SchemaTyped(types) && WellNamed(types)
    requires forall f :: f in fs ==> IsName(f.name)
    ensures forall i :: 0 <= i < |fs| ==> Nested(SubSelections(fs, types, depth, maxDepth)[i], Budget(depth, maxDepth))
    decreases Budget(depth, maxDepth), 2, |fs|
  {
    forall i | 0 <= i < |fs|
      ensures Nested(SubSelections(fs, types, depth, maxDepth)[i], Budget(depth, maxDepth))
    {
      SelectionNested(fs[i], types, depth, maxDepth);
    }
  }

  // ----------------------------------------------------------------- documents

  datatype OpKind = QueryOp | MutationOp

  function OpWord(op: OpKind): string
  {
    match op
    case QueryOp => "query"
    case MutationOp => "mutation"
  }

  predicate ValuesSerializable(vals: seq<Entry>)
  {
    forall i :: 0 <= i < |vals| ==> Serializable(vals[i].val)
  }

  function ArgItems(vals: seq<Entry>): (r: seq<string>)
    requires ValuesSerializable(vals)
    ensures |r| == |vals|
  {
    if vals == [] then [] else [vals[0].key + ": " + Serialize(vals[0].val)] + ArgItems(vals[1..])
  }

  /** `(k: v, …)` when there are arguments, nothing otherwise. */
  function ArgText(vals: seq<Entry>): string
    requires ValuesSerializable(vals)
  {
    if |vals| > 0 then "(" + Join(ArgItems(vals), ", ") + ")" else ""
  }

  predicate DocumentInputs(f: FieldDef, types: seq<TypeDef>, vals: seq<Entry>)
  {
    f.ftype.Some? && SchemaTyped(types) && ValuesSerializable(vals)
  }

  function ReturnsObject(f: FieldDef): bool
    requires f.ftype.Some?
  {
    BaseType(f.ftype.value).kind == Object
  }

  /**
   * The document exactly as `check_field` writes it. For an OBJECT field it
   * puts the whole selection, which starts with the field's own name, inside
   * the field's braces whenever there are arguments or the operation is a
   * mutation.
   */
  function DocumentAsWritten(op: OpKind, f: FieldDef, types: seq<TypeDef>, vals: seq<Entry>): string
    requires DocumentInputs(f, types, vals)
  {
    var head := OpWord(op) + " { ";
    var sel := Selection(f, types, 0, 5);
    if op == QueryOp && |vals| == 0 then head + sel + " }"
    else if ReturnsObject(f) then head + f.name + ArgText(vals) + " { " + sel + " } }"
    else head + f.name + ArgText(vals) + " }"
  }

  /** The document the code evidently means: the field, its arguments, then its own selection set. */
  function Document(op: OpKind, f: FieldDef, types: seq<TypeDef>, vals: seq<Entry>): string
    requires DocumentInputs(f, types, vals)
  {
    OpWord(op) + " { " + f.name + ArgText(vals) + SelectionSet(f, types, 0, 5) + " }"
  }

  /** Where the code is right the two documents coincide. */
  lemma DocumentAgreesWhenSound(op: OpKind, f: FieldDef, types: seq<TypeDef>, vals: seq<Entry>)
    requires DocumentInputs(f, types, vals)
    requires !ReturnsObject(f) || (op == QueryOp && |vals| == 0)
    ensures Document(op, f, types, vals) == DocumentAsWritten(op, f, types, vals)
  {
    var head, ss, args := OpWord(op) + " { ", SelectionSet(f, types, 0, 5), ArgText(vals);
    assert Document(op, f, types, vals) == head + f.name + args + ss + " }";
    if op == QueryOp && |vals| == 0 {
      assert args == [];
      assert head + f.name + args == head + f.name;
      assert head + f.name + ss == head + (f.name + ss);
      assert DocumentAsWritten(op, f, types, vals) == head + (f.name + ss) + " }";
    } else {
      assert ss == [];
      assert head + f.name + args + ss == head + f.name + args;
      assert DocumentAsWritten(op, f, types, vals) == head + f.name + args + " }";
    }
  }

  /** As written, an OBJECT field with arguments (or in a mutation) is selected inside itself. */
  lemma AsWrittenRepeatsField(op: OpKind, f: FieldDef, types: seq<TypeDef>, vals: seq<Entry>)
    requires DocumentInputs(f, types, vals)
    requires ReturnsObject(f) && (op == MutationOp || |vals| > 0)
    ensures DocumentAsWritten(op, f, types, vals)
         == OpWord(op) + " { " + f.name + ArgText(vals) + " { " + f.name + SelectionSet(f, types, 0, 5) + " } }"
  {
    var a, n, ss := ArgText(vals), f.name, SelectionSet(f, types, 0, 5);
    var sel := Selection(f, types, 0, 5);
    assert sel == n + ss;
    var p := OpWord(op) + " { " + n + a + " { ";
    assert p + (n + ss) == p + n + ss;
  }

  /**
   * The corrected document selects, under the field, exactly the fields of its
   * object type, each rendered one level deeper.
   */
  lemma DocumentSelectsObjectFields(op: OpKind, f: FieldDef, types: seq<TypeDef>, vals: seq<Entry>, obj: TypeDef)
    requires DocumentInputs(f, types, vals) && ReturnsObject(f)
    requires FindType(types, BaseType(f.ftype.value).name) == Some(obj) && |obj.fields| > 0
    ensures Document(op, f, types, vals)
         == OpWord(op) + " { " + f.name + ArgText(vals) + " { " + Join(SubSelections(obj.fields, types, 1, 5), " ") + " } }"
  {
    var inner := Join(SubSelections(obj.fields, types, 1, 5), " ");
    var front := OpWord(op) + " { " + f.name + ArgText(vals);
    assert SelectionSet(f, types, 0, 5) == " { " + inner + " }";
    assert front + (" { " + inner + " }") + " }" == front + " { " + inner + " } }";
  }

  /** The introspected `user(id: ID!): User` with `User { id: ID }`. */
  function UserField(): FieldDef
  {
    FieldDef("user", [ArgDef("id", Some(TypeRef(NonNull, None, Some(TypeRef(Scalar, Some("ID"), None)))))],
             Some(TypeRef(Object, Some("User"), None)))
  }

  function UserTypes(): seq<TypeDef>
  {
    [TypeDef("User", Object, [FieldDef("id", [], Some(TypeRef(Scalar, Some("ID"), None)))], [])]
  }

  lemma UserSelectionSet()
    ensures SchemaTyped(UserTypes())
    ensures SelectionSet(UserField(), UserTypes(), 0, 5) == " { id }"
  {
    var f, types := UserField(), UserTypes();
    assert FindType(types, Some("User")) == Some(types[0]);
    var idField := types[0].fields[0];
    assert idField.name == "id";
    assert SelectionSet(idField, types, 1, 5) == "";
    var idSel := Selection(idField, types, 1, 5);
    assert idSel == idField.name + SelectionSet(idField, types, 1, 5);
    assert idSel == "id" + "";
    assert idSel == "id";
    var subs := SubSelections(types[0].fields, types, 1, 5);
    assert |subs| == 1 && subs[0] == idSel;
    assert subs == ["id"];
    assert Join(subs, " ") == "id";
  }

  lemma UserArgText()
    ensures ValuesSerializable([Entry("id", StrVal("123"))])
    ensures ArgText([Entry("id", StrVal("123"))]) == "(id: \"123\")"
  {
    var vals := [Entry("id", StrVal("123"))];
    assert Serialize(StrVal("123")) == "\"123\"";
    assert vals[1..] == [];
    var item := vals[0].key + ": " + Serialize(vals[0].val);
    assert ArgItems(vals) == [item] + ArgItems(vals[1..]);
    assert ArgItems(vals[1..]) == [];
    assert item == "id" + ": " + "\"123\"";
    assert Join(ArgItems(vals), ", ") == item;
  }

  /** The query `check_field` sends for `user(id: "123")`: the field `user` is asked for inside `user`. */
  lemma AsWrittenUserQuery()
    ensures DocumentInputs(UserField(), UserTypes(), [Entry("id", StrVal("123"))])
    ensures DocumentAsWritten(QueryOp, UserField(), UserTypes(), [Entry("id", StrVal("123"))])
         == "query" + " { " + "user" + "(id: \"123\")" + " { " + "user" + " { id }" + " } }"
  {
    var f, types, vals := UserField(), UserTypes(), [Entry("id", StrVal("123"))];
    UserSelectionSet();
    UserArgText();
    AsWrittenRepeatsField(QueryOp, f, types, vals);
  }

  /** The corrected query for the same field selects `id` directly under `user`. */
  lemma CorrectedUserQuery()
    ensures DocumentInputs(UserField(), UserTypes(), [Entry("id", StrVal("123"))])
    ensures Document(QueryOp, UserField(), UserTypes(), [Entry("id", StrVal("123"))])
         == "query" + " { " + "user" + "(id: \"123\")" + " { id }" + " }"
  {
    UserSelectionSet();
    UserArgText();
  }

  // -------------------------------------------------------------- check_field

  /** What one POST attempt produced: a response, or an exception with its message. */
  datatype Outcome = Reply(status: int, text: string) | Raised(message: string)

  /** The record `check_field` returns. */
  datatype ProbeResult =
    | Answered(url: string, operation: string, status: int, response: string,
               argsUsed: seq<Entry>, query: string, attempts: nat)
    | Failed(url: string, operation: string, error: string,
             argsUsed: seq<Entry>, query: string, attempts: nat)

  function Prefix(s: string, n: nat): (r: string)
    ensures |r| == (if |s| < n then |s| else n) && r <= s
  {
    if |s| <= n then s else s[..n]
  }

  /** The query as recorded: its first 100 characters and `...` when it is longer. */
  function Excerpt(q: string): (r: string)
    ensures |q| <= 100 ==> r == q
    ensures |q| > 100 ==> |r| == 103 && r[..100] == q[..100] && r[100..] == "..."
  {
    if |q| > 100 then q[..100] + "..." else q
  }

  /** Index of the first reply among the first `n` outcomes, or `n` when all raised. */
  function FirstReply(outcomes: seq<Outcome>, n: nat): (r: nat)
    requires n <= |outcomes|
    ensures r <= n
    ensures r < n ==> outcomes[r].Reply?
    ensures forall j :: 0 <= j < r ==> outcomes[j].Raised?
  {
    if n == 0 then 0
    else
      var r := FirstReply(outcomes, n - 1);
      if r < n - 1 then r else if outcomes[n - 1].Reply? then n - 1 else n
  }

  /**
   * `check_field`: up to `maxRetries + 1` attempts, stopping at the first reply.
   * `outcomes[k]` is what attempt `k` would meet and `draws[i]` the UUID the
   * i-th argument would draw; the sleeps between attempts are not modelled.
   */
  method CheckField(url: string, op: OpKind, f: FieldDef, types: seq<TypeDef>, draws: seq<Uuid4>,
                    maxRetries: int, outcomes: seq<Outcome>) returns (r: Option<ProbeResult>)
    requires f.ftype.Some? && SchemaTyped(types) && ArgsTyped(f.args) && |draws| == |f.args|
    requires maxRetries + 1 <= |outcomes|
    ensures ValuesSerializable(ArgValues(f.args, types, draws))
    ensures r.None? <==> maxRetries < 0
    ensures r.Some? ==> r.value.url == url && r.value.operation == OpWord(op) + "." + f.name
    ensures r.Some? ==> r.value.argsUsed == ArgValues(f.args, types, draws)
    ensures r.Some? ==> r.value.query == Excerpt(DocumentAsWritten(op, f, types, ArgValues(f.args, types, draws)))
    ensures r.Some? && (!ReturnsObject(f) || (op == QueryOp && |f.args| == 0))
            ==> r.value.query == Excerpt(Document(op, f, types, ArgValues(f.args, types, draws)))
    ensures r.Some? ==> RetryOutcome(r.value, maxRetries + 1, outcomes)
  {
    var vals := ArgValues(f.args, types, draws);
    ArgValuesSerializable(f.args, types, draws);
    var query := Excerpt(DocumentAsWritten(op, f, types, vals));
    if !ReturnsObject(f) || (op == QueryOp && |f.args| == 0) {
      if |f.args| == 0 {
        assert |vals| == 0;
      }
      DocumentAgreesWhenSound(op, f, types, vals);
    }
    r := Attempts(url, OpWord(op) + "." + f.name, vals, query, maxRetries, outcomes);
  }

  /** The attempt count and the result kind agree with the first reply among the first `n` outcomes. */
  predicate RetryOutcome(p: ProbeResult, n: nat, outcomes: seq<Outcome>)
    requires 1 <= n <= |outcomes|
  {
    var k := FirstReply(outcomes, n);
    if k < n then
      p.Answered? && p.attempts == k + 1 && p.status == outcomes[k].status
      && p.response == Prefix(outcomes[k].text, 200)
    else
      p.Failed? && p.attempts == n && p.error == outcomes[n - 1].message
  }

  /** The retry loop of `check_field` once the document is fixed. */
  method Attempts(url: string, operation: string, vals: seq<Entry>, query: string,
                  maxRetries: int, outcomes: seq<Outcome>) returns (r: Option<ProbeResult>)
    requires maxRetries + 1 <= |outcomes|
    ensures r.None? <==> maxRetries < 0
    ensures r.Some? ==> r.value.url == url && r.value.operation == operation
    ensures r.Some? ==> r.value.argsUsed == vals && r.value.query == query
    ensures r.Some? ==> 1 <= r.value.attempts <= maxRetries + 1
    ensures r.Some? ==> RetryOutcome(r.value, maxRetries + 1, outcomes)
  {
    r := None;
    var attempt := 0;
    while attempt < maxRetries + 1
      invariant 0 <= attempt <= |outcomes| && (maxRetries >= 0 ==> attempt <= maxRetries)
      invariant FirstReply(outcomes, attempt) == attempt
    {
      match outcomes[attempt]
      case Reply(status, text) =>
        r := Some(Answered(url, operation, status, Prefix(text, 200), vals, query, attempt + 1));
        FirstReplyStops(outcomes, attempt, maxRetries + 1);
        return;
      case Raised(message) =>
        FirstReplyPasses(outcomes, attempt);
        if attempt >= maxRetries {
          r := Some(Failed(url, operation, message, vals, query, attempt + 1));
          return;
        }
        attempt := attempt + 1;
    }
  }

  /** An attempt that raised moves the search on. */
  lemma FirstReplyPasses(outcomes: seq<Outcome>, k: nat)
    requires k < |outcomes| && FirstReply(outcomes, k) == k && outcomes[k].Raised?
    ensures FirstReply(outcomes, k + 1) == k + 1
  {
  }

  /** Once a reply is found, later outcomes do not move it. */
  lemma {:induction false} FirstReplyStops(outcomes: seq<Outcome>, k: nat, n: nat)
    requires k < n <= |outcomes| && FirstReply(outcomes, k) == k && outcomes[k].Reply?
    ensures FirstReply(outcomes, n) == k
    decreases n
  {
    if n > k + 1 {
      FirstReplyStops(outcomes, k, n - 1);
    }
  }

  lemma ArgValuesSerializable(args: seq<ArgDef>, types: seq<TypeDef>, draws: seq<Uuid4>)
    requires ArgsTyped(args) && |draws| == |args|
    ensures ValuesSerializable(ArgValues(args, types, draws))
  {
    var vs := Payloads(args, types, draws);
    forall i | 0 <= i < |vs| ensures Serializable(vs[i]) {
      PayloadNotList(args[i], types, draws[i]);
    }
    PutAllSerializable(ArgNames(args), vs);
  }

  /** `build_test_payload` never builds a list, whatever the schema. */
  lemma PayloadNotList(arg: ArgDef, types: seq<TypeDef>, drawn: Uuid4)
    requires arg.atype.Some?
    ensures !BuildTestPayload(arg, types, drawn).ListVal?
  {
  }

  lemma {:induction false} PutAllSerializable(ks: seq<string>, vs: seq<Value>)
    requires |ks| == |vs| && forall i :: 0 <= i < |vs| ==> Serializable(vs[i])
    ensures ValuesSerializable(PutAll(ks, vs))
  {
    if ks != [] {
      var n := |ks| - 1;
      PutAllSerializable(ks[..n], vs[..n]);
      PutKeepsValues(PutAll(ks[..n], vs[..n]), ks[n], vs[n]);
    }
  }

  lemma {:induction false} PutKeepsValues(d: seq<Entry>, k: string, v: Value)
    requires ValuesSerializable(d) && Serializable(v)
    ensures ValuesSerializable(Put(d, k, v))
  {
    if d != [] && d[0].key != k {
      PutKeepsValues(d[1..], k, v);
    }
  }

  // ------------------------------------------------- process_url root fields

  /** One field to probe, with the operation it belongs to. */
  datatype RootField = RootField(op: OpKind, field: FieldDef)

  function Tagged(op: OpKind, fs: seq<FieldDef>): (r: seq<RootField>)
    ensures |r| == |fs| && forall i :: 0 <= i < |fs| ==> r[i] == RootField(op, fs[i])
  {
    seq(|fs|, i requires 0 <= i < |fs| => RootField(op, fs[i]))
  }

  predicate IsMutationType(t: TypeDef, mutation: Option<string>)
  {
    mutation.Some? && mutation.value != "" && t.name == mutation.value
  }

  /** The fields of every type named like the query type, and (when there is one) the mutation type. */
  function RootFields(types: seq<TypeDef>, query: string, mutation: Option<string>): seq<RootField>
  {
    if types == [] then []
    else
      var n := |types| - 1;
      var t := types[n];
      RootFields(types[..n], query, mutation)
        + (if t.name == query then Tagged(QueryOp, t.fields) else [])
        + (if IsMutationType(t, mutation) then Tagged(MutationOp, t.fields) else [])
  }

  /** The enumeration loop of `process_url`. */
  method RootOperations(types: seq<TypeDef>, query: string, mutation: Option<string>) returns (ops: seq<RootField>)
    ensures ops == RootFields(types, query, mutation)
  {
    ops := [];
    for i := 0 to |types|
      invariant ops == RootFields(types[..i], query, mutation)
    {
      var t := types[i];
      assert types[..i + 1][..i] == types[..i];
      if t.name == query {
        ops := AppendTagged(ops, QueryOp, t.fields);
      }
      if IsMutationType(t, mutation) {
        ops := AppendTagged(ops, MutationOp, t.fields);
      }
    }
    assert types[..|types|] == types;
  }

  /** One inner loop: a probe of kind `op` for each field, in order. */
  method AppendTagged(ops0: seq<RootField>, op: OpKind, fs: seq<FieldDef>) returns (ops: seq<RootField>)
    ensures ops == ops0 + Tagged(op, fs)
  {
    ops := ops0;
    for j := 0 to |fs|
      invariant ops == ops0 + Tagged(op, fs[..j])
    {
      assert Tagged(op, fs[..j + 1]) == Tagged(op, fs[..j]) + [RootField(op, fs[j])];
      ops := ops + [RootField(op, fs[j])];
    }
    assert fs[..|fs|] == fs;
  }

  /** A query probe is made for a field exactly when some type named like the query type declares it. */
  lemma {:induction false} RootFieldsQuery(types: seq<TypeDef>, query: string, mutation: Option<string>, f: FieldDef)
    ensures RootField(QueryOp, f) in RootFields(types, query, mutation)
        <==> exists t :: t in types && t.name == query && f in t.fields
  {
    if types != [] {
      var n := |types| - 1;
      RootFieldsQuery(types[..n], query, mutation, f);
      assert types == types[..n] + [types[n]];
      var t := types[n];
      if t.name == query && f in t.fields {
        var i :| 0 <= i < |t.fields| && t.fields[i] == f;
        assert Tagged(QueryOp, t.fields)[i] == RootField(QueryOp, f);
      }
    }
  }

  /** A mutation probe is made for a field exactly when the schema names a mutation type that declares it. */
  lemma {:induction false} RootFieldsMutation(types: seq<TypeDef>, query: string, mutation: Option<string>, f: FieldDef)
    ensures RootField(MutationOp, f) in RootFields(types, query, mutation)
        <==> exists t :: t in types && IsMutationType(t, mutation) && f in t.fields
  {
    if types != [] {
      var n := |types| - 1;
      RootFieldsMutation(types[..n], query, mutation, f);
      assert types == types[..n] + [types[n]];
      var t := types[n];
      if IsMutationType(t, mutation) && f in t.fields {
        var i :| 0 <= i < |t.fields| && t.fields[i] == f;
        assert Tagged(MutationOp, t.fields)[i] == RootField(MutationOp, f);
      }
    }
  }

  // ------------------------------------------------- status code distribution

  /** How many answered results carry `status`. */
  function CountStatus(results: seq<ProbeResult>, status: int): nat
  {
    if results == [] then 0
    else
      var n := |results| - 1;
      CountStatus(results[..n], status) + (if results[n].Answered? && results[n].status == status then 1 else 0)
  }

  /** A status is counted exactly when some answered result carries it. */
  lemma {:induction false} CountStatusPositive(results: seq<ProbeResult>, status: int)
    ensures CountStatus(results, status) > 0
        <==> exists i :: 0 <= i < |results| && results[i].Answered? && results[i].status == status
  {
    if results != [] {
      var n := |results| - 1;
      CountStatusPositive(results[..n], status);
      if exists i :: 0 <= i < |results| && results[i].Answered? && results[i].status == status {
        var i :| 0 <= i < |results| && results[i].Answered? && results[i].status == status;
        if i < n {
          assert results[..n][i] == results[i];
        }
      }
    }
  }

  /** The `status_counts` loop of `main`: results that raised carry no status and are skipped. */
  method StatusDistribution(results: seq<ProbeResult>) returns (counts: map<int, nat>)
    ensures forall s :: s in counts <==> CountStatus(results, s) > 0
    ensures forall s :: s in counts ==> counts[s] == CountStatus(results, s)
  {
    counts := map[];
    for i := 0 to |results|
      invariant forall s :: s in counts <==> CountStatus(results[..i], s) > 0
      invariant forall s :: s in counts ==> counts[s] == CountStatus(results[..i], s)
    {
      assert results[..i + 1][..i] == results[..i];
      var r := results[i];
      if r.Answered? {
        var before := if r.status in counts then counts[r.status] else 0;
        counts := counts[r.status := before + 1];
      }
    }
    assert results[..|results|] == results;
  }
}
