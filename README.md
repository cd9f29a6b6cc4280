# GraphQL and Swagger probing helpers, modelled in Dafny

The repository is a set of security-probing scripts. They fetch a GraphQL
introspection result or a Swagger/OpenAPI document, synthesize requests from
it, and record which endpoints answer. This project models the deterministic
logic under the HTTP calls and proves properties of it:

- **GraphQL request synthesis.**
  - `Schema`: introspection records and `ofType` wrapper chains (sections 3.11,
    3.12 and 4.2 of the GraphQL specification, October 2021).
  - `ProxyChecker` (`proxy_checker_v3.py`):
    - unwrapping, heuristic argument payloads, and random UUIDs rendered per
      section 3 of RFC 4122;
    - depth-bounded selection sets and argument literals;
    - document assembly and the bounded retry loop of `check_field`;
    - root-field enumeration, and the status-code tally of `main`.
  - `GraphqlChecker` (`graphql_checker_v4.py`):
    - type lookup, `build_fields_block`, and PII keyword matching;
    - proof-of-concept queries and `guess_values`;
    - operation extraction;
    - `get_fields_recursive` with its copy-on-branch visited set;
    - query building and the success predicate of `check_single_operation`.
  - `GraphqlCheckerV3` (`graphql_checker_v3.py`): the result-file name rule.
    This file's `guess_values`, `extract_operations`, `get_named_type`,
    `get_fields_recursive` and `check_single_operation` are the same code as
    v4's. They are modelled once, in `GraphqlChecker`.
- **Swagger/OpenAPI helpers.**
  - `Swagger` (`swagger_checker_threads.py`):
    - the brace-counting scanner that carves the `"swaggerDoc":` object out
      of JavaScript;
    - candidate spec URLs, with order-preserving de-duplication;
    - detection and substitution of `{…id…}` path placeholders;
    - HTTP-method filtering of Path Items (section 4.7.9 of the OpenAPI
      Specification 3.0.3; `trace` is not kept);
    - the candidate list probed for a GET endpoint.
  - `SwaggerNew` (`swagger_new.py`): the variant that tries three numeric id
    values. Its scanner, URL lists, placeholder pattern and method filter are
    the same code as the threaded checker's, so it reuses `Swagger`.
- **Small helpers.**
  - `Generate` (`generate.py`): subdomain-suffix URLs.
  - `ContentType` (`check-content-type.py`): the content-type predicate.
- **Shared modules.**
  - `Wrappers`: Option.
  - `Text`: Python string operations, such as `lower` (ASCII), `in`,
    `find`, `split`, `join`, `replace` and `strip`.
  - `Lists`: `list(dict.fromkeys(...))`.
  - `Braces`: brace depth and nesting.
  - `Json`: `json.dumps` of a string.

Where a Python function updates variables in a loop, the model is usually a
`method` with a loop. Its `ensures` ties the result to a specification
function. The properties the source promises are then lemmas about that
function. `serialize_arg_value`, whose loops only append rendered items to a
local list, is modelled as the recursive functions `Serialize`, `DictItems`
and `ListItems` instead.

## Model

| member | source | states |
|---|---|---|
| Schema.BaseTypeInChain | proxy_checker_v3.py:72-76 | the unwrapped type is a link of the `ofType` chain that is not itself unwrapped, and every link before it is a NON_NULL/LIST wrapper whose `ofType` was fetched |
| Schema.BaseTypeOfWrapped | proxy_checker_v3.py:74-75 | wrapping a type in NON_NULL or LIST does not change what it unwraps to |
| Schema.LastLinkIsLast | graphql_checker_v4.py:125-129 | the link `get_type_name` stops at is the last link of the chain, and it has no `ofType` |
| Schema.FindType | graphql_checker_v4.py:81-85 | the lookup returns a record of the schema with the requested name, and returns nothing exactly when no record has that name |
| Schema.FindTypeIndex | proxy_checker_v3.py:117 | the index found is the first record with that name: no earlier record matches, and -1 means none does |
| ProxyChecker.UnwrapType | proxy_checker_v3.py:72-76 | the while loop returns the base of the chain, and that base is not a wrapper with a fetched `ofType` |
| ProxyChecker.UuidTextShape | proxy_checker_v3.py:94 | `str(uuid4())` is 36 characters in the 8-4-4-4-12 form, with hex digits, version digit `4` and variant digit in `89ab` |
| ProxyChecker.PayloadFitsStandardScalar | proxy_checker_v3.py:84-104 | for a SCALAR argument type the synthesized value is exactly the integer 1 for Int, the float 1.1 for Float and true for Boolean, and a string for ID |
| ProxyChecker.PayloadUuidForIdArgument | proxy_checker_v3.py:91-94 | an ID argument whose name mentions uuid or guid gets the drawn UUID's 36-character text |
| ProxyChecker.PayloadIgnoresWrappers | proxy_checker_v3.py:79 | a NON_NULL or LIST wrapper around an argument type does not change its payload |
| ProxyChecker.PayloadIgnoresCase | proxy_checker_v3.py:82 | the argument name matters only up to letter case |
| ProxyChecker.PayloadEnumIsDeclared | proxy_checker_v3.py:116-120 | an ENUM argument whose type name hints at no other scalar gets the first declared value of that enum |
| ProxyChecker.NatText | proxy_checker_v3.py:171 | `str` of a natural number is decimal digits with no leading zero |
| ProxyChecker.DictQuotingAgrees | proxy_checker_v3.py:153-156 | for the plain strings the payloads use, quoting a dictionary's string value directly gives the same text as `json.dumps` |
| ProxyChecker.IntTextIsLiteral | proxy_checker_v3.py:171 | `str` of any integer is a GraphQL IntValue |
| ProxyChecker.QuotedIsStringLiteral | proxy_checker_v3.py:168-169 | a string of source characters (tab or U+0020 to U+FFFF, section 2.1.1 of the GraphQL specification, October 2021) without quote or backslash is rendered as a GraphQL StringValue |
| ProxyChecker.PayloadSerializesToLiteral | proxy_checker_v3.py:78-171 | every synthesized payload is accepted by the serializer; when the schema's enum values are GraphQL Names, its text is an Int, Float, Boolean or String literal of GraphQL (section 2.9); an enum value goes out as a String |
| ProxyChecker.ShapedIsLiteral | proxy_checker_v3.py:148-171 | any value of the shapes `build_test_payload` produces serializes to an Int, Float, Boolean or String literal; no payload becomes an EnumValue |
| ProxyChecker.ScalarPayloadShaped | proxy_checker_v3.py:84-104 | the SCALAR branch yields only an integer, 1.1, a boolean, the UUID text or one of the fixed words |
| ProxyChecker.NamedPayloadShaped | proxy_checker_v3.py:106-127 | the non-SCALAR branches yield only those shapes, a declared enum value (a GraphQL Name) or `UNKNOWN_ENUM` |
| ProxyChecker.FractionLiteral | proxy_checker_v3.py:88 | the Float payload `1.1` renders as a GraphQL FloatValue |
| ProxyChecker.ShapedStringIsLiteral | proxy_checker_v3.py:168-169 | every string payload becomes a well-formed StringValue once quoted |
| ProxyChecker.Put | proxy_checker_v3.py:176 | assigning `d[k] = v` keeps an existing key in its place or appends a new one, stores `v` under `k`, and leaves every other key's value unchanged |
| ProxyChecker.PutAllKeys | proxy_checker_v3.py:176 | a dict built by successive assignments holds each key once, in order of first assignment |
| ProxyChecker.PutAllLastWins | proxy_checker_v3.py:176 | under a repeated key the dict holds the value of the last assignment |
| ProxyChecker.ArgValuesKeys | proxy_checker_v3.py:176 | `arg_values` holds each argument name once, in order of first appearance |
| ProxyChecker.ArgValuesLastWins | proxy_checker_v3.py:176 | under a repeated argument name, `arg_values` holds the payload of the last argument with that name |
| ProxyChecker.ArgValuesSerializable | proxy_checker_v3.py:176-185 | for any schema, every value of `arg_values` is one the serializer accepts: the payload builder never builds a list |
| ProxyChecker.Payloads | proxy_checker_v3.py:176 | one payload per argument, in argument order |
| ProxyChecker.SubSelections | proxy_checker_v3.py:141 | one sub-selection per field of the object type, in field order, each built one level deeper |
| ProxyChecker.SelectionNested | proxy_checker_v3.py:129-146 | a selection is brace-balanced and never nests deeper than `max_depth + 1 - depth` levels, so the recursion is bounded even on self-referential types |
| ProxyChecker.SubSelectionsNested | proxy_checker_v3.py:141-142 | every sub-selection respects the same nesting bound |
| ProxyChecker.ArgItems | proxy_checker_v3.py:185 | one `k: v` piece per entry of `arg_values` |
| ProxyChecker.DocumentAgreesWhenSound | proxy_checker_v3.py:183-194 | when the field returns no OBJECT, or it is a query without arguments, the document as written equals the corrected one |
| ProxyChecker.AsWrittenRepeatsField | proxy_checker_v3.py:186-192 | as written, an OBJECT field with arguments, or any OBJECT mutation, is selected inside itself: `op { f(A) { f { … } } }` |
| ProxyChecker.DocumentSelectsObjectFields | proxy_checker_v3.py:183-194 | the corrected document selects the object type's own fields directly under `f(A)` |
| ProxyChecker.UserSelectionSet | proxy_checker_v3.py:129-146 | for `user: User` with `User { id }`, the selection set below `user` is ` { id }` |
| ProxyChecker.UserArgText | proxy_checker_v3.py:185 | the arguments `{id: "123"}` render as `(id: "123")` |
| ProxyChecker.AsWrittenUserQuery | proxy_checker_v3.py:186 | as written, `user(id: ID!): User` is probed with `query { user(id: "123") { user { id } } }` |
| ProxyChecker.CorrectedUserQuery | proxy_checker_v3.py:183-186 | corrected, the same field is probed with `query { user(id: "123") { id } }` |
| ProxyChecker.Prefix | proxy_checker_v3.py:201 | `text[:200]` is the prefix of the text of length min(200, len(text)) |
| ProxyChecker.Excerpt | proxy_checker_v3.py:203 | a query of at most 100 characters is kept whole; a longer one is cut to its first 100 characters followed by `...` |
| ProxyChecker.FirstReply | proxy_checker_v3.py:180-210 | the index found is the first attempt that got a response; every earlier attempt raised |
| ProxyChecker.CheckField | proxy_checker_v3.py:173-218 | no result exactly when `max_retries < 0`; otherwise the result carries the url, `op.field`, the argument dict and the excerpt of the document as the code writes it (`DocumentAsWritten`), which equals the corrected `Document` wherever no OBJECT nesting happens; it is the response of the first attempt that got one, with `attempts` set to that attempt's number, or else the error of the final attempt with `attempts = max_retries + 1` |
| ProxyChecker.Attempts | proxy_checker_v3.py:180-218 | the retry loop makes between 1 and `max_retries + 1` attempts, and its result matches the first reply as above |
| ProxyChecker.FirstReplyPasses | proxy_checker_v3.py:206-210 | an attempt that raised before the final one moves the search to the next attempt |
| ProxyChecker.FirstReplyStops | proxy_checker_v3.py:196-205 | once an attempt gets a response, later outcomes do not change the result |
| ProxyChecker.Tagged | proxy_checker_v3.py:238-242 | one probe of the given kind per field, in field order |
| ProxyChecker.RootOperations | proxy_checker_v3.py:236-242 | the nested enumeration loop produces exactly the root probes of the schema, in schema order |
| ProxyChecker.AppendTagged | proxy_checker_v3.py:238-242 | the inner loop appends one probe per field, in order, to what was there |
| ProxyChecker.RootFieldsQuery | proxy_checker_v3.py:237-239 | a query probe is made for a field exactly when some type named like the query type declares it |
| ProxyChecker.RootFieldsMutation | proxy_checker_v3.py:240-242 | a mutation probe is made for a field exactly when a mutation type is named and some type of that name declares it |
| ProxyChecker.CountStatusPositive | proxy_checker_v3.py:304-306 | a status is counted exactly when some answered result carries it |
| ProxyChecker.StatusDistribution | proxy_checker_v3.py:303-306 | the tally has a key exactly for each status some answered result carries, mapped to how many carry it; results that raised are skipped |
| GraphqlChecker.GetType | graphql_checker_v4.py:81-85 | the loop returns the first record with the requested name, or nothing |
| GraphqlChecker.GetNamedType | graphql_checker_v4.py:254-257 | the loop returns the name on the last link of the `ofType` chain (also graphql_checker_v3.py:93-96) |
| GraphqlChecker.FieldParts | graphql_checker_v4.py:89-106 | one entry per field of the type, in field order |
| GraphqlChecker.BuildFieldsBlock | graphql_checker_v4.py:87-108 | the loop computes the block: "" beyond depth 3; otherwise `f { nested }` for an OBJECT field whose type is found and the bare name for any other field, joined by single spaces |
| GraphqlChecker.FieldsBlockNested | graphql_checker_v4.py:87-108 | the block is brace-balanced and nests at most `4 - depth` levels |
| GraphqlChecker.FieldPartNested | graphql_checker_v4.py:96-103 | each entry respects the same bound |
| GraphqlChecker.ObjectAtDepthThree | graphql_checker_v4.py:88-103 | an OBJECT field met at depth 3 renders as `f {  }`, because the block below depth 3 is empty |
| GraphqlChecker.MatchesAnyIff | graphql_checker_v4.py:117 | `any(k in name for k in keywords)` holds exactly when some keyword occurs in the name |
| GraphqlChecker.EmailAddressIsPii | graphql_checker_v4.py:31-43 | a field called `emailAddress` matches the keyword list |
| GraphqlChecker.LowerPrefixMatches | graphql_checker_v4.py:116-117 | a name that starts with a lower-case keyword matches it in any letter case |
| GraphqlChecker.FindPiiFields | graphql_checker_v4.py:110-123 | the nested loop produces the suspicious fields of the schema, type by type and field by field |
| GraphqlChecker.TypePiiIff | graphql_checker_v4.py:115-122 | within one type, a field is reported exactly when its lower-cased name contains a keyword, with the type's name, its own name and its type |
| GraphqlChecker.PiiFieldsIff | graphql_checker_v4.py:110-123 | an entry is in the schema's report exactly when it is a keyword-matching field of some type, with that type's name, the field's name and its type; types without fields add nothing |
| GraphqlChecker.TypePiiCount | graphql_checker_v4.py:115-122 | a type contributes exactly one entry per keyword-matching field |
| GraphqlChecker.PiiFieldsCount | graphql_checker_v4.py:110-123 | the report has exactly as many entries as the schema has keyword-matching fields, counted type by type |
| GraphqlChecker.PiiFieldsAppend | graphql_checker_v4.py:112-122 | entries keep schema order: the report for two groups of types is the first group's report followed by the second's |
| GraphqlChecker.PocShape | graphql_checker_v4.py:131-138 | the proof-of-concept query contains no argument list (no `(` or `:`), is brace-balanced and nests at most 6 levels |
| GraphqlChecker.PocBlockShape | graphql_checker_v4.py:135 | `{ f { block } }` for a found type is well nested |
| GraphqlChecker.PocBareShape | graphql_checker_v4.py:137 | `{ f }` is well nested |
| GraphqlChecker.PocSelectionShape | graphql_checker_v4.py:131-138 | the query uses only names, spaces and braces, and nests at most 6 levels |
| GraphqlChecker.GuessFrom | graphql_checker_v4.py:210-214 | searching from key `i`: the values of the first key that occurs in the name, or `["1"]` when none does |
| GraphqlChecker.Guess | graphql_checker_v4.py:210-214 | never empty; the values of the first table key, in insertion order, that occurs in the lower-cased name, else `["1"]` (also graphql_checker_v3.py:47-51) |
| GraphqlChecker.GuessValues | graphql_checker_v4.py:210-214 | the linear search returns exactly that guess |
| GraphqlChecker.UserIdGuess | graphql_checker_v4.py:195-214 | `userId` gets the `id` values, because `id` precedes `user` in the table |
| GraphqlChecker.CommonValuesPlain | graphql_checker_v4.py:195-208 | every value in the table is printable ASCII without quote or backslash |
| GraphqlChecker.GuessPlain | graphql_checker_v4.py:288 | every guessed value is plain, so `json.dumps` only adds the quotes |
| GraphqlChecker.FieldOperations | graphql_checker_v4.py:249-251 | one operation per field, with the field's name, its argument names in order and no type name |
| GraphqlChecker.ExtractOperations | graphql_checker_v4.py:245-252 | the nested loop produces the operations of every type that has fields, in schema order (also graphql_checker_v3.py:84-91) |
| GraphqlChecker.AppendFieldOperations | graphql_checker_v4.py:249-251 | the inner loop appends one operation per field, in order |
| GraphqlChecker.OperationsIff | graphql_checker_v4.py:245-252 | an operation is extracted exactly when it is a field of some type, with its argument names and no type name; root types are not singled out |
| GraphqlChecker.FieldOperationsIff | graphql_checker_v4.py:249-251 | within one type, the same statement for its fields |
| GraphqlChecker.OperationsCount | graphql_checker_v4.py:245-252 | there are exactly as many operations as fields over all types |
| GraphqlChecker.VisitShrinks | graphql_checker_v4.py:264 | adding an unvisited schema name to `visited` shrinks the set of names left, so the recursion ends |
| GraphqlChecker.ListedName | graphql_checker_v4.py:262 | a name some record carries is one of the schema's names |
| GraphqlChecker.FieldsRec | graphql_checker_v4.py:259-278 | the result is never empty |
| GraphqlChecker.FieldEntries | graphql_checker_v4.py:269-277 | one entry per field of the type, in field order, each given the same copy of `visited` |
| GraphqlChecker.GetFieldsRecursive | graphql_checker_v4.py:259-278 | the recursion with its mutated and copied visited set computes the specification: `["__typename"]` for an empty, visited, unknown or fieldless name, otherwise one entry per field (also graphql_checker_v3.py:98-117) |
| GraphqlChecker.EntryWrappedIffListed | graphql_checker_v4.py:272-277 | an entry is `f { … }` exactly when the field's named type is non-empty and listed in the schema, scalars included; otherwise it is the bare name |
| GraphqlChecker.SelfReferenceCut | graphql_checker_v4.py:261-262 | a field whose type is already on the path renders as `f { __typename }` |
| GraphqlChecker.FieldsRecNested | graphql_checker_v4.py:259-278 | each entry nests no deeper than the number of schema names the path has not visited |
| GraphqlChecker.FieldEntryNested | graphql_checker_v4.py:272-277 | a field entry nests at most one level more than that number |
| GraphqlChecker.FirstFieldNamed | graphql_checker_v4.py:294-297 | the inner loop's `break` picks the first field of that name, and nothing when no field has that name |
| GraphqlChecker.FindOpTypeName | graphql_checker_v4.py:291-297 | the nested loops compute the operation's type name |
| GraphqlChecker.OpTypeNameLast | graphql_checker_v4.py:291-297 | `break` exits only the inner loop, so the type name comes from the last type, in schema order, that has a field of that name (also graphql_checker_v3.py:130-136) |
| GraphqlChecker.OpTypeNameAbsent | graphql_checker_v4.py:291-297 | with no field of that name in any type, there is no type name |
| GraphqlChecker.OpTypeNameNeedsType | graphql_checker_v4.py:296 | a type name can only come from a field that carries its type, so this file's own introspection, which does not ask for field types, never yields one |
| GraphqlChecker.ArgStrings | graphql_checker_v4.py:285-288 | one `name: value` piece per argument, in order |
| GraphqlChecker.ArgStringsQuoted | graphql_checker_v4.py:285-288 | each argument is given its first guessed value between plain quotes |
| GraphqlChecker.BuildArgStrings | graphql_checker_v4.py:284-288 | the loop computes those pieces |
| GraphqlChecker.BuildOperationQuery | graphql_checker_v4.py:284-304 | the query text is `{ op(args) block }`, built from the argument pieces, the last-match type name and the recursive selection (also graphql_checker_v3.py:123-143) |
| GraphqlChecker.UntypedQuery | graphql_checker_v4.py:299-304 | when no field carries its type, the query is `{ op(args)  }` with an empty block |
| GraphqlChecker.ArgBlockSingle | graphql_checker_v4.py:289 | one argument gives `(name: value)` |
| GraphqlChecker.SingleArgQuery | graphql_checker_v4.py:284-304 | a one-argument operation against such a schema is `{ op(a: "v")  }` |
| GraphqlChecker.IdArgString | graphql_checker_v4.py:288 | the argument `id` is sent as `id: "1"` |
| GraphqlChecker.IdGuessedFirst | graphql_checker_v4.py:196 | the first guess for `id` is `1` |
| GraphqlChecker.ProbeSucceededIff | graphql_checker_v4.py:307-310 | a probe succeeds exactly when the status is 200, the content type passes the content-type predicate, the body is not blank and it does not contain `errors` (also graphql_checker_v3.py:147-150) |
| GraphqlChecker.ErrorsNeverSucceed | graphql_checker_v4.py:310 | a body containing `errors` never counts, whatever the status and header |
| GraphqlCheckerV3.UrlStem | graphql_checker_v3.py:160 | the URL part of the file name contains no `/` |
| GraphqlCheckerV3.ResultFilename | graphql_checker_v3.py:160 | the file name starts with the URL stem and ends with `__` + operation + `.txt` |
| GraphqlCheckerV3.StemOfPlainUrl | graphql_checker_v3.py:160 | a URL with neither `:` nor `/` is its own stem |
| GraphqlCheckerV3.StemOfUrl | graphql_checker_v3.py:160 | `scheme://host/path` becomes `scheme_host_path` |
| GraphqlCheckerV3.FilenameHasNoSlash | graphql_checker_v3.py:160-161 | when the operation name has no `/`, the file stays inside the results directory |
| Json.JsonStringPlain | graphql_checker_v4.py:288 | `json.dumps` of a plain string is the string between double quotes |
| Json.JsonEscapeSafe | graphql_checker_v4.py:288 | `json.dumps` of any string yields printable ASCII: control and non-ASCII characters come out as `\u` escapes, with surrogate pairs above U+FFFF |
| Json.HighSurrogate | graphql_checker_v4.py:288 | the high surrogate of a code point above U+FFFF lies in D800-DBFF |
| Json.LowSurrogate | graphql_checker_v4.py:288 | the low surrogate lies in DC00-DFFF |
| Lists.DedupSound | swagger_checker_threads.py:143-144 | `list(dict.fromkeys(xs))` has no duplicates and holds exactly the elements of `xs` |
| Lists.DedupPrefix | swagger_checker_threads.py:143-144 | de-duplication keeps first-occurrence order: de-duplicating a longer list extends the de-duplication of its prefix |
| Lists.DedupIdentity | swagger_checker_threads.py:143-144 | a list without duplicates is left as it is |
| Lists.DedupAbsorbs | swagger_checker_threads.py:143-144 | appending only elements already present changes nothing |
| Swagger.SkipSpaces | swagger_checker_threads.py:41-42 | the index moves past whitespace only, and stops at the end or at a character that is not whitespace |
| Swagger.SkipSpacesFrom | swagger_checker_threads.py:41-42 | the while loop computes that index |
| Swagger.ScanEnd | swagger_checker_threads.py:52-57 | a found end lies after the start and within the text |
| Swagger.ScanObject | swagger_checker_threads.py:49-57 | the brace-counting loop ends with count 0 exactly when the scan finds an end, and then at that end |
| Swagger.ScanEndSpec | swagger_checker_threads.py:49-60 | a found end is the first position where the brace count reaches 0, every earlier prefix leaving it positive; when none is found the count stays positive to the end of the text (also swagger_new.py:39-53) |
| Swagger.ScanEndFound | swagger_checker_threads.py:52-57 | the found case of that statement |
| Swagger.ScanEndMissing | swagger_checker_threads.py:52-60 | the unbalanced case: the count never reaches 0 |
| Swagger.ObjectStart | swagger_checker_threads.py:35-46 | a found start is a `{` within the text |
| Swagger.LocateObject | swagger_checker_threads.py:34-46 | the marker search and the whitespace loop compute that start, and give none when the marker is absent, the text runs out, or the next character is not `{` |
| Swagger.MarkerAbsent | swagger_checker_threads.py:34-38 | without `"swaggerDoc":` nothing is extracted (also swagger_new.py:23-28) |
| Swagger.ClosesAtEnd | swagger_checker_threads.py:49-60 | a slice that opens with `{`, returns to depth 0 only at its end, is at least two characters long and ends with `}` |
| Swagger.ObjectSlice | swagger_checker_threads.py:49-63 | the carved slice starts with `{`, is balanced, and every proper prefix has positive depth |
| Swagger.ObjectIsBalanced | swagger_checker_threads.py:63 | the slice is a balanced object, `strip` leaves it unchanged, and it occurs in the input |
| Swagger.SwaggerTextShape | swagger_checker_threads.py:30-63 | the text handed to `json.loads` is a balanced `{…}` object that occurs in the input after the marker |
| Swagger.ExtractSwaggerFromJs | swagger_checker_threads.py:30-72 | the result is `json.loads` of the carved text when there is one, and none otherwise; a parse failure is none too |
| Swagger.StandardJsonUrls | swagger_checker_threads.py:84-93 | eight standard JSON URLs |
| Swagger.StandardJsUrls | swagger_checker_threads.py:96-100 | three standard JS URLs |
| Swagger.GenerateSwaggerUrls | swagger_checker_threads.py:74-146 | the two lists are the de-duplicated standard URLs followed by the URLs of the one path branch that fires for the lower-cased path (also swagger_new.py:69-147) |
| Swagger.StandardDistinct | swagger_checker_threads.py:84-100 | the standard URLs are pairwise distinct |
| Swagger.StandardOnOrigin | swagger_checker_threads.py:84-100 | every standard URL starts with `scheme://netloc` |
| Swagger.ExtraOnOrigin | swagger_checker_threads.py:103-140 | every branch-specific URL starts with `scheme://netloc` |
| Swagger.ExtraJsonOnOrigin | swagger_checker_threads.py:103-139 | the same for the JSON URLs |
| Swagger.AnySwaggerJsonOnOrigin | swagger_checker_threads.py:132-139 | the same for the last, generic `swagger` branch |
| Swagger.ExtraJsOnOrigin | swagger_checker_threads.py:109-140 | the same for the JS URLs |
| Swagger.CandidatesShape | swagger_checker_threads.py:84-146 | both lists begin with the standard URLs in their fixed order, have no duplicates, and stay on the page's origin |
| Swagger.UiScriptAddsNothing | swagger_checker_threads.py:103-112 | for a path ending in `/swagger-ui.js` the lists are exactly the standard ones, since every branch URL is already listed |
| Swagger.JsonPathOfPage | swagger_checker_threads.py:133-134 | a `.js`, `.html` or `.htm` path has its last extension replaced by `.json` |
| Swagger.PageSuggestsJson | swagger_checker_threads.py:132-135 | in the generic branch such a page's `.json` sibling is a candidate |
| Swagger.FirstClose | swagger_checker_threads.py:150 | the index found is the first `}`, and -1 exactly when there is none |
| Swagger.FirstCloseIsFind | swagger_checker_threads.py:150 | that search is `Text.Find` (Python's `str.find`) for the needle `}` |
| Swagger.SubstituteChangesIff | swagger_checker_threads.py:148-159 | substituting a brace-free value changes the URL exactly when `has_id_parameter` holds |
| Swagger.SubstituteRemovesAll | swagger_checker_threads.py:155-159 | after substituting a brace-free value no id placeholder is left |
| Swagger.SubstituteNothing | swagger_checker_threads.py:148-159 | a URL without an id placeholder is left unchanged |
| Swagger.SubstituteNoClose | swagger_checker_threads.py:155-159 | substitution introduces no `}` |
| Swagger.CopyUpToClose | swagger_checker_threads.py:150-159 | text up to a `}` whose braces hold no id is copied unchanged, and substitution continues after it |
| Swagger.IdValuesBraceFree | swagger_checker_threads.py:158 | the id values are brace-free |
| Swagger.IdVariantsFor | swagger_checker_threads.py:156-161 | the loop produces one variant per value, in order, each with every placeholder substituted by that value |
| Swagger.GenerateIdVariants | swagger_checker_threads.py:153-162 | exactly six variants, for 1, 2, 3, me, current and admin, in order |
| Swagger.VariantsResolved | swagger_checker_threads.py:148-162 | no variant has a placeholder left, and a variant differs from the URL exactly when the URL had one |
| Swagger.LowerAll | swagger_checker_threads.py:236 | one lower-cased method per entry |
| Swagger.FilterMethods | swagger_checker_threads.py:233-236 | the two comprehensions keep the HTTP-method keys, lower-cased and in order (also swagger_new.py:234-237) |
| Swagger.CollectUpper | swagger_checker_threads.py:233 | the first comprehension collects the upper-cased kept keys; lowering them gives the method list |
| Swagger.LowerEach | swagger_checker_threads.py:236 | the second comprehension lower-cases each collected key |
| Swagger.ExtractEndpoints | swagger_checker_threads.py:230-236 | the path loop lists the endpoints of the paths before the first value that is not an object (all of them when there is none), and reports whether it got through every path; a non-object value makes `.keys()` raise, which ends the loop with the list so far and skips `spec_found = True` (:238, :246-249) |
| Swagger.ObjectRun | swagger_checker_threads.py:230-231 | the number of paths the loop handles: every one before it is an object, and the one at it, if any, is not |
| Swagger.ObjectRunAll | swagger_checker_threads.py:230-231 | with object values only, the loop handles every path |
| Swagger.EndpointsBeforeRaise | swagger_checker_threads.py:230-236 | an endpoint is listed exactly when a path before the first non-object value keeps some method; with object values only, that is every path |
| Swagger.MethodsOfIff | swagger_checker_threads.py:233 | a method is kept exactly when it is one of get, post, put, delete, patch, head, options and some key lower-cases to it |
| Swagger.TraceDropped | swagger_checker_threads.py:233 | `trace` is never kept |
| Swagger.EndpointsIff | swagger_checker_threads.py:230-236 | over object-valued Path Items, an endpoint is listed exactly when some Path Item keeps some method; it then carries that item's full URL and method list, and items left with no method are omitted |
| Swagger.CandidateUrls | swagger_checker_threads.py:261-267 | at most one URL plus one per id value |
| Swagger.EndpointCandidates | swagger_checker_threads.py:261-267 | a GET endpoint is probed first at its URL, then at six resolved variants that differ from it when it has a placeholder, and at its URL alone otherwise |
| SwaggerNew.GenerateIdVariants | swagger_new.py:154-163 | exactly three variants, for 1, 2 and 3, in order |
| SwaggerNew.NumericValuesArePrefix | swagger_new.py:159 | the three values are the first three of the threaded checker's six |
| SwaggerNew.EndpointCandidates | swagger_new.py:264-270 | a GET endpoint is probed at its URL, then at its three resolved variants, which are the first three of the threaded checker's, when it has a placeholder, and at its URL alone otherwise |
| Generate.Labels | generate.py:7 | a hostname always splits into at least one label |
| Generate.LoopUrlsIff | generate.py:11-14 | the loop adds exactly `scheme://` + `parts[i:]` joined by dots, for `0 <= i < n - 2` |
| Generate.SuffixUrlsDistinct | generate.py:11-14 | suffixes of different lengths give different URLs |
| Generate.LoopUrlsCount | generate.py:11-14 | the loop adds as many distinct URLs as it runs rounds |
| Generate.SortedSet | generate.py:18 | `sorted` of a set returns exactly its elements, strictly increasing, one each |
| Generate.GenerateVariants | generate.py:5-18 | the result holds exactly the variants, sorted and without duplicates |
| Generate.HostIncluded | generate.py:17 | `scheme://hostname` is always in the result |
| Generate.EntriesAreSuffixes | generate.py:11-14 | every other entry is `scheme://` + a suffix of the hostname with at least three labels |
| Generate.VariantsCount | generate.py:7-18 | a hostname with `n` labels gives `n - 2` URLs when `n >= 3`, and 1 otherwise |
| Generate.SortedHasNoDuplicates | generate.py:18 | a strictly sorted list has no duplicates |
| Generate.SuffixEndsHost | generate.py:12 | each joined suffix is a suffix of the hostname |
| ContentType.IsValidContentType | check-content-type.py:6-7 | a missing header is invalid |
| ContentType.ValidIff | check-content-type.py:8-11 | a header is valid exactly when it contains `application/json` or `text/plain` in any letter case |
| ContentType.ValidWithNeedle | check-content-type.py:8-11 | any header containing `application/json` or `text/plain`, in any letter case, is valid |
| ContentType.EmptyIsInvalid | check-content-type.py:8-11 | the empty header is invalid |
| ContentType.ContainsLowerIff | check-content-type.py:9-10 | a lower-case needle occurs in the lower-cased text exactly when it occurs in the text up to letter case |

## Findings

| source | as written | input that shows it | evidently intended | confidence | as-written member | corrected member |
|---|---|---|---|---|---|---|
| proxy_checker_v3.py:186-192 | For a query with arguments, or for a mutation, whose field returns an OBJECT, the document nests `field_str` inside `{ }`. But `field_str` already begins with the field's own name, so the field is selected inside itself. | `user(id: ID!): User` with `type User { id: ID }` is sent as `query { user(id: "123") { user { id } } }` | `query { user(id: "123") { id } }`: the field, its arguments, then its own selection set | not executed | ProxyChecker.AsWrittenUserQuery | ProxyChecker.CorrectedUserQuery |

`ProxyChecker.DocumentAsWritten` models the code as written. The general
statement of the discrepancy is `ProxyChecker.AsWrittenRepeatsField`.
`CheckField` records the document as written, as the code sends it, and
states that it equals `ProxyChecker.Document`, the corrected document,
wherever no OBJECT nesting happens.
`ProxyChecker.DocumentSelectsObjectFields` states its shape.
`ProxyChecker.DocumentAgreesWhenSound` shows the two agree wherever the code
is right.

## Left out

- HTTP traffic is not modelled: `requests`, sessions, `introspect_schema`, `check_introspection`, `post_graphql`, `execute_poc_pii`, `check_url` and the fetch loops of `extract_paths_from_swagger` are not part of this model. Responses enter only as inputs: a status, a content type, a body, or a sequence of attempt outcomes.
- Concurrency is not modelled: thread pools, `as_completed` ordering, the semaphore of `check_field` and the print lock. The retry loop is modelled as if the semaphore were absent.
- The `time.sleep` backoff between attempts is not modelled; only the attempt count is.
- `uuid.uuid4()` is random. Each argument's UUID is a parameter, `draws`: sixteen bytes with the version-4 and variant bits set.
- `json.loads` and `response.json()` are foreign parsers. `ExtractSwaggerFromJs` takes the parser as a function parameter, and `has_non_empty_body` and `is_json_response` are not modelled. `json.dumps` is modelled on the value datatype the payloads use, with a float kept as its text.
- `urlparse` is not modelled. Scheme, netloc, path and hostname are inputs, and the hostname is taken as already lower-cased. A URL without a hostname, where `hostname` is `None` and `generate_variants` raises, is not modelled.
- `re` is not modelled in general. The single placeholder pattern `\{[^}]*[iI][dD][^}]*\}` is hand-coded as `HasIdParameter` and `SubstituteIds`.
- Letter case is ASCII only: `Lower` and `Upper` do not apply Python's Unicode case mapping to letters outside ASCII.
- The float `1.1` is a fixed value rendered `1.1`; no floating-point arithmetic is modelled.
- In type records, a JSON `null` for `fields` or `enumValues` is taken as the empty list. graphql_checker_v4.py:90 would raise `TypeError` on a present `null` (`get` returns it and the loop iterates it); a conforming introspection result never gives `null` fields for an OBJECT type.
- A field or argument record without `type` is allowed (`Option`), because the v3/v4 introspection queries do not ask for field types. Members that index `type` directly in Python require it to be present; Python would raise `KeyError` there.
- ProxyChecker.Serialize: lists directly inside lists are not accepted, because Python renders them through `str` with single-quoted strings. The payload builder never produces them.
- ProxyChecker.ShapedIsLiteral: an ENUM argument's payload is the enum value's name as a string, and `serialize_arg_value` quotes every string (proxy_checker_v3.py:116-120, :168-169), so `RED` is sent as `"RED"`, a StringValue. Section 3.9 of the GraphQL specification says a string literal must not be accepted as an enum input, so servers reject these arguments. The model keeps the program's behaviour and claims no EnumValue literal.
- File and console I/O are not modelled: `argparse`, every `main`, `prepare_results_folder`, curl-command and result-file writing, `print`, and the module-level file loop of `generate.py`.
- `swagger_check.py` is not part of this model: it is network calls and file writes around trivial concatenation.
- `get_base_from_url` is modelled only as `Origin(scheme, netloc)`, from already-parsed parts.
