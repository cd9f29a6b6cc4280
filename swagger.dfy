/**
 * The Swagger/OpenAPI helpers of `swagger_checker_threads.py` (the same code,
 * without its debug output, is in `swagger_new.py`): carving the embedded
 * specification out of `swagger-ui-init.js`, guessing specification URLs from
 * a Swagger UI address, finding `{...id...}` path placeholders and filling
 * them in, and keeping only the HTTP methods of a Path Item.
 */
module Swagger {

  import opened Wrappers
  import opened Text
  import opened Braces
  import opened Lists

  // ------------------------------------------------ extract_swagger_from_js

  const Marker: string := "\"swaggerDoc\":"

  /** The first position at or after `i` that is not whitespace, or the end. */
  function SkipSpaces(js: string, i: nat): (r: nat)
    requires i <= |js|
    ensures i <= r <= |js|
    ensures forall k :: i <= k < r ==> IsSpace(js[k])
    ensures r < |js| ==> !IsSpace(js[r])
    decreases |js| - i
  {
    if i < |js| && IsSpace(js[i]) then SkipSpaces(js, i + 1) else i
  }

  /**
   * The brace scan: starting at `i` with `count` braces open, the position
   * just after the brace that closes them all, or `None` at the end of text.
   */
  function ScanEnd(js: string, i: nat, count: int): (r: Option<nat>)
    requires i <= |js| && count > 0
    ensures r.Some? ==> i < r.value <= |js|
    decreases |js| - i
  {
    if i == |js| then None
    else if count + Delta(js[i]) == 0 then Some(i + 1)
    else ScanEnd(js, i + 1, count + Delta(js[i]))
  }

  lemma DepthStep(js: string, i: nat, k: nat)
    requires i < k <= |js|
    ensures Depth(js[i..k]) == Delta(js[i]) + Depth(js[i + 1..k])
  {
    assert js[i..k] == [js[i]] + js[i + 1..k];
    DepthConcat([js[i]], js[i + 1..k]);
    assert [js[i]][..0] == [];
  }

  /**
   * The scan stops exactly at the first position where the open braces reach
   * zero; `None` means they never do before the end of the text.
   */
  lemma ScanEndSpec(js: string, i: nat, count: int)
    requires i <= |js| && count > 0
    ensures ScanEnd(js, i, count).Some? ==>
              var e := ScanEnd(js, i, count).value;
              i < e <= |js| && count + Depth(js[i..e]) == 0
              && forall k :: i <= k < e ==> count + Depth(js[i..k]) > 0
    ensures ScanEnd(js, i, count).None? ==> forall k :: i <= k <= |js| ==> count + Depth(js[i..k]) > 0
  {
    if ScanEnd(js, i, count).Some? {
      ScanEndFound(js, i, count);
    } else {
      ScanEndMissing(js, i, count);
    }
  }

  lemma {:induction false} ScanEndFound(js: string, i: nat, count: int)
    requires i <= |js| && count > 0 && ScanEnd(js, i, count).Some?
    ensures var e := ScanEnd(js, i, count).value;
            count + Depth(js[i..e]) == 0 && forall k :: i <= k < e ==> count + Depth(js[i..k]) > 0
    decreases |js| - i
  {
    assert js[i..i] == [];
    var c := count + Delta(js[i]);
    var e := ScanEnd(js, i, count).value;
    forall k | i < k <= e ensures Depth(js[i..k]) == Delta(js[i]) + Depth(js[i + 1..k]) {
      DepthStep(js, i, k);
    }
    if c != 0 {
      ScanEndFound(js, i + 1, c);
    } else {
      assert js[i + 1..i + 1] == [];
    }
  }

  lemma {:induction false} ScanEndMissing(js: string, i: nat, count: int)
    requires i <= |js| && count > 0 && ScanEnd(js, i, count).None?
    ensures forall k :: i <= k <= |js| ==> count + Depth(js[i..k]) > 0
    decreases |js| - i
  {
    assert js[i..i] == [];
    if i < |js| {
      var c := count + Delta(js[i]);
      forall k | i < k <= |js| ensures Depth(js[i..k]) == Delta(js[i]) + Depth(js[i + 1..k]) {
        DepthStep(js, i, k);
      }
      ScanEndMissing(js, i + 1, c);
    }
  }


  /**
   * The object text after `"swaggerDoc":` (whitespace skipped), from its `{` to
   * the `}` that balances it, stripped; `None` when the marker is missing, the
   * next character is not `{` or the text ends first, or the braces never balance.
   */
  function SwaggerText(js: string): Option<string>
  {
    match ObjectStart(js)
    case None => None
    case Some(start) =>
      match ScanEnd(js, start + 1, 1)
      case None => None
      case Some(end) => Some(Strip(js[start..end]))
  }

  /** Where the object opens: the first `{` after the marker and any whitespace. */
  function ObjectStart(js: string): (r: Option<nat>)
    ensures r.Some? ==> r.value < |js| && js[r.value] == '{'
  {
    var found := Find(js, Marker);
    if found == -1 then None
    else
      var start := SkipSpaces(js, found + |Marker|);
      if start == |js| || js[start] != '{' then None
      else Some(start)
  }

  /** Without the marker there is nothing to extract. */
  lemma MarkerAbsent(js: string)
    requires !Contains(js, Marker)
    ensures SwaggerText(js).None?
  {
  }

  /** A text that opens with `{` and first returns to depth zero at its end closes with `}`. */
  lemma ClosesAtEnd(t: string)
    requires |t| >= 1 && t[0] == '{' && Depth(t) == 0
    requires forall k :: 1 <= k < |t| ==> Depth(t[..k]) > 0
    ensures |t| >= 2 && t[|t| - 1] == '}'
  {
    assert t[..1] == [t[0]];
    assert Depth(t[..1]) == 1 by {
      assert t[..1][..0] == [];
    }
    assert Depth(t) == Depth(t[..|t| - 1]) + Delta(t[|t| - 1]);
  }

  /** The carved object, before stripping: balanced, closing only at its end. */
  lemma ObjectSlice(js: string, start: nat)
    requires start < |js| && js[start] == '{' && ScanEnd(js, start + 1, 1).Some?
    ensures var t := js[start..ScanEnd(js, start + 1, 1).value];
      t[0] == '{' && Depth(t) == 0 && forall k :: 1 <= k < |t| ==> Depth(t[..k]) > 0
  {
    ScanEndSpec(js, start + 1, 1);
    var end := ScanEnd(js, start + 1, 1).value;
    var t := js[start..end];
    DepthStep(js, start, end);
    forall k | 1 <= k < |t| ensures Depth(t[..k]) > 0 {
      assert t[..k] == js[start..start + k];
      DepthStep(js, start, start + k);
    }
  }

  /**
   * A balanced object: it starts with `{`, ends with the `}` that brings the
   * count back to zero, and every proper prefix leaves a brace open.
   */
  predicate BalancedObject(t: string)
  {
    |t| >= 2 && t[0] == '{' && t[|t| - 1] == '}' && Depth(t) == 0
    && forall k :: 1 <= k < |t| ==> Depth(t[..k]) > 0
  }

  /** An extracted text is a balanced object that occurs in the script, which holds the marker. */
  lemma SwaggerTextShape(js: string)
    requires SwaggerText(js).Some?
    ensures BalancedObject(SwaggerText(js).value)
    ensures Contains(js, Marker) && Contains(js, SwaggerText(js).value)
  {
    var start := ObjectStart(js).value;
    var end := ScanEnd(js, start + 1, 1).value;
    var t := js[start..end];
    assert Find(js, Marker) != -1;
    ObjectIsBalanced(js, start);
    assert Strip(t) == t;
  }

  /** The carved object is balanced, closes with `}`, survives stripping and occurs in the text. */
  lemma ObjectIsBalanced(js: string, start: nat)
    requires start < |js| && js[start] == '{' && ScanEnd(js, start + 1, 1).Some?
    ensures var t := js[start..ScanEnd(js, start + 1, 1).value];
      BalancedObject(t) && Strip(t) == t && Contains(js, t)
  {
    var t := js[start..ScanEnd(js, start + 1, 1).value];
    ObjectSlice(js, start);
    ClosesAtEnd(t);
    StripKeeps(t);
    assert OccursAt(js, t, start);
  }

  /** The whitespace-skipping loop. */
  method SkipSpacesFrom(js: string, i: nat) returns (r: nat)
    requires i <= |js|
    ensures r == SkipSpaces(js, i)
  {
    r := i;
    while r < |js| && IsSpace(js[r])
      invariant i <= r <= |js|
      invariant SkipSpaces(js, i) == SkipSpaces(js, r)
    {
      r := r + 1;
    }
  }

  /** The brace-counting loop, from just after the opening brace. */
  method ScanObject(js: string, i: nat) returns (end: nat, count: int)
    requires i <= |js|
    ensures count == 0 ==> ScanEnd(js, i, 1) == Some(end)
    ensures count != 0 ==> ScanEnd(js, i, 1).None?
  {
    count := 1;
    end := i;
    while end < |js| && count > 0
      invariant i <= end <= |js| && count >= 0
      invariant ScanEnd(js, i, 1) == if count == 0 then Some(end) else ScanEnd(js, end, count)
    {
      if js[end] == '{' {
        count := count + 1;
      } else if js[end] == '}' {
        count := count - 1;
      }
      end := end + 1;
    }
  }

  /**
   * `extract_swagger_from_js`: the scanning loops, then the foreign JSON
   * parser `loads` (its failures read as `None`) on the carved text.
   */
  method ExtractSwaggerFromJs<D>(js: string, loads: string -> Option<D>) returns (r: Option<D>)
    ensures r == (if SwaggerText(js).Some? then loads(SwaggerText(js).value) else None)
  {
    var opening := LocateObject(js);
    if opening.None? {
      return None;
    }
    var start := opening.value;
    var end, count := ScanObject(js, start + 1);
    if count != 0 {
      return None;
    }
    r := loads(Strip(js[start..end]));
  }

  /** The marker search and the whitespace skip before the object. */
  method LocateObject(js: string) returns (r: Option<nat>)
    ensures r == ObjectStart(js)
  {
    var found := Find(js, Marker);
    if found == -1 {
      return None;
    }
    var start := SkipSpacesFrom(js, found + |Marker|);
    if start == |js| || js[start] != '{' {
      return None;
    }
    return Some(start);
  }

  // ----------------------------------------------------- generate_swagger_urls

  /** The eight well-known specification locations. */
  function StandardJsonUrls(base: string): (r: seq<string>)
    ensures |r| == 8
  {
    [base + "/swagger/v1/swagger.json", base + "/swagger.json", base + "/v2/api-docs", base + "/api-docs",
     base + "/swagger/doc.json", base + "/api/swagger.json", base + "/openapi.json",
     base + "/swagger/developer/swagger.json"]
  }

  /** The three well-known `swagger-ui-init.js` locations. */
  function StandardJsUrls(base: string): (r: seq<string>)
    ensures |r| == 3
  {
    [base + "/swagger/swagger-ui-init.js", base + "/api/swagger/swagger-ui-init.js", base + "/swagger-ui-init.js"]
  }

  /** Which path rule applies; the first matching condition wins. */
  datatype Rule = UiScript | IndexPage | ApiSwagger | AnySwagger | NoRule

  function RuleOf(path: string): Rule
  {
    if EndsWith(path, "/swagger-ui.js") then UiScript
    else if Contains(path, "/swagger/index.html") then IndexPage
    else if EndsWith(path, "/api/swagger") then ApiSwagger
    else if Contains(path, "swagger") then AnySwagger
    else NoRule
  }

  /** `.js`, `.html` or `.htm` at the end. */
  predicate WebPage(path: string)
  {
    EndsWith(path, ".js") || EndsWith(path, ".html") || EndsWith(path, ".htm")
  }

  /** `path.rsplit('.', 1)[0] + '.json'`. */
  function JsonPathOf(path: string): string
  {
    var dot := LastIndexOf(path, '.');
    (if dot >= 0 then path[..dot] else path) + ".json"
  }

  /** `'/'.join(path.split('/')[:-1])`: everything before the last slash. */
  function DirPath(path: string): string
  {
    var pieces := Split(path, '/');
    Join(pieces[..|pieces| - 1], "/")
  }

  /** The specification URLs the path rule adds. */
  function ExtraJsonUrls(base: string, path: string): seq<string>
  {
    match RuleOf(path)
    case UiScript => [base + "/swagger.json", base + "/v2/api-docs", base + "/api/swagger.json"]
    case IndexPage =>
      var sb := ReplaceAll(path, "/index.html", "");
      [base + sb + "/v1/swagger.json", base + sb + "/swagger.json", base + sb + "/doc.json"]
    case ApiSwagger =>
      var ab := ReplaceAll(path, "/swagger", "");
      [base + ab + "/swagger.json", base + ab + "/swagger/swagger.json", base + ab + "/v2/api-docs"]
    case AnySwagger =>
      (if WebPage(path) then [base + JsonPathOf(path)] else [])
      + (if DirPath(path) != "" then [base + DirPath(path) + "/swagger.json"] else [])
    case NoRule => []
  }

  /** The script URLs the path rule adds. */
  function ExtraJsUrls(base: string, path: string): seq<string>
  {
    match RuleOf(path)
    case UiScript => [base + "/swagger-ui-init.js", base + "/swagger/swagger-ui-init.js"]
    case IndexPage => [base + ReplaceAll(path, "/index.html", "") + "/swagger-ui-init.js"]
    case ApiSwagger => [base + "/api/swagger/swagger-ui-init.js"]
    case AnySwagger => if DirPath(path) != "" then [base + DirPath(path) + "/swagger-ui-init.js"] else []
    case NoRule => []
  }

  /**
   * `generate_swagger_urls`: the standard lists, extended by the rule for the
   * lower-cased path, each with duplicates removed in first-occurrence order.
   */
  method GenerateSwaggerUrls(scheme: string, netloc: string, rawPath: string)
    returns (jsonUrls: seq<string>, jsUrls: seq<string>)
    ensures jsonUrls == Dedup(StandardJsonUrls(Origin(scheme, netloc)) + ExtraJsonUrls(Origin(scheme, netloc), Lower(rawPath)))
    ensures jsUrls == Dedup(StandardJsUrls(Origin(scheme, netloc)) + ExtraJsUrls(Origin(scheme, netloc), Lower(rawPath)))
  {
    var base := Origin(scheme, netloc);
    var path := Lower(rawPath);
    var json := StandardJsonUrls(base);
    var js := StandardJsUrls(base);
    var rule := RuleOf(path);
    if EndsWith(path, "/swagger-ui.js") {
      json := json + [base + "/swagger.json", base + "/v2/api-docs", base + "/api/swagger.json"];
      js := js + [base + "/swagger-ui-init.js", base + "/swagger/swagger-ui-init.js"];
      assert js == StandardJsUrls(base) + ExtraJsUrls(base, path);
    } else if Contains(path, "/swagger/index.html") {
      assert rule == IndexPage;
      var swaggerBase := ReplaceAll(path, "/index.html", "");
      json := json + [base + swaggerBase + "/v1/swagger.json", base + swaggerBase + "/swagger.json",
                      base + swaggerBase + "/doc.json"];
      js := js + [base + swaggerBase + "/swagger-ui-init.js"];
      assert js == StandardJsUrls(base) + ExtraJsUrls(base, path);
    } else if EndsWith(path, "/api/swagger") {
      assert rule == ApiSwagger;
      var apiBase := ReplaceAll(path, "/swagger", "");
      json := json + [base + apiBase + "/swagger.json", base + apiBase + "/swagger/swagger.json",
                      base + apiBase + "/v2/api-docs"];
      js := js + [base + "/api/swagger/swagger-ui-init.js"];
      assert js == StandardJsUrls(base) + ExtraJsUrls(base, path);
    } else if Contains(path, "swagger") {
      assert rule == AnySwagger;
      var added: seq<string> := [];
      if EndsWith(path, ".js") || EndsWith(path, ".html") || EndsWith(path, ".htm") {
        added := [base + JsonPathOf(path)];
      }
      json := json + added;
      var dir := DirPath(path);
      if dir != "" {
        json := json + [base + dir + "/swagger.json"];
        js := js + [base + dir + "/swagger-ui-init.js"];
      }
      assert json == StandardJsonUrls(base) + (added + (if dir != "" then [base + dir + "/swagger.json"] else []));
      assert js == StandardJsUrls(base) + ExtraJsUrls(base, path);
    } else {
      assert rule == NoRule;
      assert json == json + [] && js == js + [];
    }
    jsonUrls := Dedup(json);
    jsUrls := Dedup(js);
  }

  lemma AfterOrigin(base: string, a: string, b: string)
    requires base + a == base + b
    ensures a == b
  {
    assert a == (base + a)[|base|..];
  }

  /** The standard locations are pairwise distinct whatever the origin. */
  lemma StandardDistinct(base: string)
    ensures NoDuplicates(StandardJsonUrls(base)) && NoDuplicates(StandardJsUrls(base))
  {
    var tails := ["/swagger/v1/swagger.json", "/swagger.json", "/v2/api-docs", "/api-docs",
                  "/swagger/doc.json", "/api/swagger.json", "/openapi.json", "/swagger/developer/swagger.json"];
    var u := StandardJsonUrls(base);
    forall i, j | 0 <= i < j < 8 ensures u[i] != u[j] {
      assert u[i] == base + tails[i] && u[j] == base + tails[j];
      if u[i] == u[j] {
        AfterOrigin(base, tails[i], tails[j]);
      }
    }
    var jt := ["/swagger/swagger-ui-init.js", "/api/swagger/swagger-ui-init.js", "/swagger-ui-init.js"];
    var v := StandardJsUrls(base);
    forall i, j | 0 <= i < j < 3 ensures v[i] != v[j] {
      assert v[i] == base + jt[i] && v[j] == base + jt[j];
      if v[i] == v[j] {
        AfterOrigin(base, jt[i], jt[j]);
      }
    }
  }

  /** The URL lists a path produces, before any network access. */
  function JsonCandidates(base: string, path: string): seq<string>
  {
    Dedup(StandardJsonUrls(base) + ExtraJsonUrls(base, path))
  }

  function JsCandidates(base: string, path: string): seq<string>
  {
    Dedup(StandardJsUrls(base) + ExtraJsUrls(base, path))
  }

  lemma ExtendsOrigin(base: string, a: string)
    ensures StartsWith(base + a, base)
  {
    assert (base + a)[..|base|] == base;
  }

  predicate OnOrigin(urls: seq<string>, base: string)
  {
    forall u :: u in urls ==> StartsWith(u, base)
  }

  lemma OnOriginAppend(xs: seq<string>, ys: seq<string>, base: string)
    requires OnOrigin(xs, base) && OnOrigin(ys, base)
    ensures OnOrigin(xs + ys, base)
  {
  }

  lemma ListedOnOrigin(base: string, tails: seq<string>, urls: seq<string>)
    requires |urls| == |tails| && forall i :: 0 <= i < |urls| ==> urls[i] == base + tails[i]
    ensures OnOrigin(urls, base)
  {
    forall i | 0 <= i < |urls| ensures StartsWith(urls[i], base) {
      ExtendsOrigin(base, tails[i]);
    }
  }

  /** The same for URLs that put a common piece between the origin and each tail. */
  lemma NestedOnOrigin(base: string, mid: string, tails: seq<string>, urls: seq<string>)
    requires |urls| == |tails| && forall i :: 0 <= i < |urls| ==> urls[i] == base + mid + tails[i]
    ensures OnOrigin(urls, base)
  {
    forall i | 0 <= i < |urls| ensures StartsWith(urls[i], base) {
      ExtendsOrigin(base, mid + tails[i]);
      assert base + mid + tails[i] == base + (mid + tails[i]);
    }
  }

  lemma StandardOnOrigin(base: string)
    ensures OnOrigin(StandardJsonUrls(base), base) && OnOrigin(StandardJsUrls(base), base)
  {
    ListedOnOrigin(base, ["/swagger/v1/swagger.json", "/swagger.json", "/v2/api-docs", "/api-docs",
                          "/swagger/doc.json", "/api/swagger.json", "/openapi.json", "/swagger/developer/swagger.json"],
                   StandardJsonUrls(base));
    ListedOnOrigin(base, ["/swagger/swagger-ui-init.js", "/api/swagger/swagger-ui-init.js", "/swagger-ui-init.js"],
                   StandardJsUrls(base));
  }

  lemma ExtraOnOrigin(base: string, path: string)
    ensures OnOrigin(ExtraJsonUrls(base, path), base) && OnOrigin(ExtraJsUrls(base, path), base)
  {
    ExtraJsonOnOrigin(base, path);
    ExtraJsOnOrigin(base, path);
  }

  lemma ExtraJsonOnOrigin(base: string, path: string)
    ensures OnOrigin(ExtraJsonUrls(base, path), base)
  {
    match RuleOf(path)
    case UiScript =>
      ListedOnOrigin(base, ["/swagger.json", "/v2/api-docs", "/api/swagger.json"], ExtraJsonUrls(base, path));
    case IndexPage =>
      var sb := ReplaceAll(path, "/index.html", "");
      NestedOnOrigin(base, sb, ["/v1/swagger.json", "/swagger.json", "/doc.json"], ExtraJsonUrls(base, path));
    case ApiSwagger =>
      var ab := ReplaceAll(path, "/swagger", "");
      NestedOnOrigin(base, ab, ["/swagger.json", "/swagger/swagger.json", "/v2/api-docs"], ExtraJsonUrls(base, path));
    case AnySwagger =>
      AnySwaggerJsonOnOrigin(base, path);
    case NoRule =>
  }

  lemma AnySwaggerJsonOnOrigin(base: string, path: string)
    requires RuleOf(path) == AnySwagger
    ensures OnOrigin(ExtraJsonUrls(base, path), base)
  {
    var dir := DirPath(path);
    var page := if WebPage(path) then [base + JsonPathOf(path)] else [];
    var inDir := if dir != "" then [base + dir + "/swagger.json"] else [];
    ListedOnOrigin(base, if WebPage(path) then [JsonPathOf(path)] else [], page);
    ListedOnOrigin(base, if dir != "" then [dir + "/swagger.json"] else [], inDir);
    OnOriginAppend(page, inDir, base);
    assert ExtraJsonUrls(base, path) == page + inDir;
  }

  lemma ExtraJsOnOrigin(base: string, path: string)
    ensures OnOrigin(ExtraJsUrls(base, path), base)
  {
    match RuleOf(path)
    case UiScript =>
      ListedOnOrigin(base, ["/swagger-ui-init.js", "/swagger/swagger-ui-init.js"], ExtraJsUrls(base, path));
    case IndexPage =>
      var sb := ReplaceAll(path, "/index.html", "");
      ListedOnOrigin(base, [sb + "/swagger-ui-init.js"], ExtraJsUrls(base, path));
    case ApiSwagger =>
      ListedOnOrigin(base, ["/api/swagger/swagger-ui-init.js"], ExtraJsUrls(base, path));
    case AnySwagger =>
      var dir := DirPath(path);
      ListedOnOrigin(base, if dir != "" then [dir + "/swagger-ui-init.js"] else [], ExtraJsUrls(base, path));
    case NoRule =>
  }

  /**
   * Both lists begin with the standard locations in their fixed order, hold
   * no duplicates, and only name URLs on the Swagger UI's own origin.
   */
  lemma CandidatesShape(base: string, path: string)
    ensures |JsonCandidates(base, path)| >= 8 && JsonCandidates(base, path)[..8] == StandardJsonUrls(base)
    ensures |JsCandidates(base, path)| >= 3 && JsCandidates(base, path)[..3] == StandardJsUrls(base)
    ensures NoDuplicates(JsonCandidates(base, path)) && NoDuplicates(JsCandidates(base, path))
    ensures OnOrigin(JsonCandidates(base, path), base) && OnOrigin(JsCandidates(base, path), base)
  {
    var sj, xj := StandardJsonUrls(base), ExtraJsonUrls(base, path);
    var ss, xs := StandardJsUrls(base), ExtraJsUrls(base, path);
    StandardDistinct(base);
    DedupIdentity(sj);
    DedupIdentity(ss);
    DedupPrefix(sj, xj);
    DedupPrefix(ss, xs);
    DedupSound(sj + xj);
    DedupSound(ss + xs);
    StandardOnOrigin(base);
    ExtraOnOrigin(base, path);
    OnOriginAppend(sj, xj, base);
    OnOriginAppend(ss, xs, base);
  }

  /** A path ending in `/swagger-ui.js` only re-suggests standard locations. */
  lemma UiScriptAddsNothing(base: string, path: string)
    requires RuleOf(path) == UiScript
    ensures JsonCandidates(base, path) == StandardJsonUrls(base)
    ensures JsCandidates(base, path) == StandardJsUrls(base)
  {
    StandardDistinct(base);
    var sj := StandardJsonUrls(base);
    var ss := StandardJsUrls(base);
    assert ExtraJsonUrls(base, path) == [sj[1], sj[2], sj[5]];
    assert ExtraJsUrls(base, path) == [ss[2], ss[0]];
    DedupAbsorbs(sj, ExtraJsonUrls(base, path));
    DedupAbsorbs(ss, ExtraJsUrls(base, path));
  }

  /** The last dot of `stem + ext` is the extension's own. */
  lemma JsonPathOfPage(stem: string, ext: string)
    requires ext == ".js" || ext == ".html" || ext == ".htm"
    ensures JsonPathOf(stem + ext) == stem + ".json"
  {
    var p := stem + ext;
    var dot := LastIndexOf(p, '.');
    assert p[|stem|] == '.';
    forall j | |stem| < j < |p| ensures p[j] != '.' {
      assert p[j] == ext[j - |stem|];
    }
    assert dot == |stem|;
    assert p[..dot] == stem;
  }

  /**
   * Under the general `swagger` rule a page path `stem.js`, `stem.html` or
   * `stem.htm` also suggests `stem.json` on the same origin.
   */
  lemma PageSuggestsJson(base: string, stem: string, ext: string)
    requires ext == ".js" || ext == ".html" || ext == ".htm"
    requires RuleOf(stem + ext) == AnySwagger
    ensures base + stem + ".json" in JsonCandidates(base, stem + ext)
  {
    var p := stem + ext;
    assert p[|p| - |ext|..] == ext;
    assert WebPage(p);
    JsonPathOfPage(stem, ext);
    var extra := ExtraJsonUrls(base, p);
    assert extra[0] == base + (stem + ".json");
    assert base + (stem + ".json") == base + stem + ".json";
    DedupSound(StandardJsonUrls(base) + extra);
    assert extra[0] in StandardJsonUrls(base) + extra;
  }

  // ------------------------------------------ has_id_parameter / generate_id_variants

  /** `[iI][dD]` at position `k`. */
  predicate IdAt(w: string, k: int)
    requires 0 <= k < |w| - 1
  {
    (w[k] == 'i' || w[k] == 'I') && (w[k + 1] == 'd' || w[k + 1] == 'D')
  }

  predicate HasId(w: string)
  {
    exists k :: 0 <= k < |w| - 1 && IdAt(w, k)
  }

  /**
   * `{w}` spans positions `p..q`: `w` holds no `}` and spells `id` in any case
   * somewhere (it may hold `{`), the pattern `\{[^}]*[iI][dD][^}]*\}`.
   */
  predicate Placeholder(url: string, p: int, q: int)
  {
    0 <= p < q < |url| && url[p] == '{' && url[q] == '}' && '}' !in url[p + 1..q] && HasId(url[p + 1..q])
  }

  /** `has_id_parameter`: the pattern matches somewhere. */
  predicate HasIdParameter(url: string)
  {
    exists p, q :: 0 <= p < q < |url| && Placeholder(url, p, q)
  }

  /** The first `}` of `s`, or -1. */
  function FirstClose(s: string): (r: int)
    ensures -1 <= r < |s|
    ensures r >= 0 ==> s[r] == '}' && '}' !in s[..r]
    ensures r == -1 <==> '}' !in s
  {
    if s == [] then -1
    else if s[0] == '}' then 0
    else
      var r := FirstClose(s[1..]);
      assert r >= 0 ==> s[..r + 1] == [s[0]] + s[1..][..r];
      if r == -1 then -1 else r + 1
  }

  /** `FirstClose` is `s.find("}")`, the general search specialised to one character. */
  lemma FirstCloseIsFind(s: string)
    ensures FirstClose(s) == Find(s, "}")
  {
    var r, f := FirstClose(s), Find(s, "}");
    assert forall j :: 0 <= j < |s| ==> (OccursAt(s, "}", j) <==> s[j] == '}') by {
      forall j | 0 <= j < |s| ensures OccursAt(s, "}", j) <==> s[j] == '}' {
        assert s[j..j + 1] == [s[j]];
      }
    }
    if '}' in s {
      var j :| 0 <= j < |s| && s[j] == '}';
      assert OccursAt(s, "}", j);
      assert f >= 0;
      assert s[f..f + 1] == "}";
      assert OccursAt(s, "}", r);
    }
  }

  /**
   * `re.sub` of that pattern: scanning left to right, a `{` whose text up to
   * the next `}` spells `id` is replaced with that text and brace by `v`;
   * scanning resumes after it. Every other character is copied.
   */
  function SubstituteIds(url: string, v: string): string
    decreases |url|
  {
    if url == [] then []
    else if url[0] == '{' && FirstClose(url[1..]) >= 0 && HasId(url[1..1 + FirstClose(url[1..])]) then
      v + SubstituteIds(url[FirstClose(url[1..]) + 2..], v)
    else [url[0]] + SubstituteIds(url[1..], v)
  }

  lemma HasIdShift(w: string, a: string)
    requires HasId(w)
    ensures HasId(a + w) && HasId(w + a)
  {
    var k :| 0 <= k < |w| - 1 && IdAt(w, k);
    assert IdAt(a + w, k + |a|);
    assert IdAt(w + a, k);
  }

  /** A placeholder in the tail is a placeholder of the whole. */
  lemma PlaceholderShift(url: string, p: int, q: int)
    requires |url| > 0 && Placeholder(url[1..], p, q)
    ensures Placeholder(url, p + 1, q + 1)
  {
    var t := url[1..];
    assert url[p + 1] == t[p] && url[q + 1] == t[q];
    var a, b := url[p + 2..q + 1], t[p + 1..q];
    assert |a| == |b|;
    forall i | 0 <= i < |a| ensures a[i] == b[i] {
      assert a[i] == url[p + 2 + i] == t[p + 1 + i] == b[i];
    }
    assert a == b;
  }

  /** A placeholder that does not start at the front lies in the tail. */
  lemma PlaceholderUnshift(url: string, p: int, q: int)
    requires Placeholder(url, p, q) && p >= 1
    ensures Placeholder(url[1..], p - 1, q - 1)
  {
    assert url[1..][p..q - 1] == url[p + 1..q];
  }

  /** A placeholder behind a brace-free prefix lies in the rest. */
  lemma PlaceholderBehind(a: string, b: string, p: int, q: int)
    requires '{' !in a && Placeholder(a + b, p, q)
    ensures p >= |a| && Placeholder(b, p - |a|, q - |a|)
  {
    forall i | 0 <= i < |a| ensures (a + b)[i] != '{' {
      assert (a + b)[i] == a[i];
    }
    assert b[p - |a| + 1..q - |a|] == (a + b)[p + 1..q];
  }

  /** A `{` at the front that the substitution rewrites starts a placeholder. */
  lemma FrontPlaceholder(url: string)
    requires url != []
    ensures var c := FirstClose(url[1..]);
            url[0] == '{' && c >= 0 && HasId(url[1..1 + c]) ==> HasIdParameter(url)
  {
    var c := FirstClose(url[1..]);
    if url[0] == '{' && c >= 0 && HasId(url[1..1 + c]) {
      assert url[1..][..c] == url[1..1 + c];
      assert Placeholder(url, 0, c + 1);
    }
  }

  /** A placeholder in the tail makes the whole URL match. */
  lemma TailPlaceholder(url: string)
    requires url != []
    ensures HasIdParameter(url[1..]) ==> HasIdParameter(url)
  {
    if HasIdParameter(url[1..]) {
      var p, q :| 0 <= p < q < |url[1..]| && Placeholder(url[1..], p, q);
      PlaceholderShift(url, p, q);
    }
  }

  /** Without a placeholder, substitution leaves the URL as it is. */
  lemma {:induction false} SubstituteNothing(url: string, v: string)
    requires !HasIdParameter(url)
    ensures SubstituteIds(url, v) == url
    decreases |url|
  {
    if url != [] {
      FrontPlaceholder(url);
      TailPlaceholder(url);
      SubstituteNothing(url[1..], v);
      assert [url[0]] + url[1..] == url;
    }
  }

  lemma FirstCloseAt(x: string, t: string)
    requires '}' !in x
    ensures FirstClose(x + "}" + t) == |x|
  {
    var s := x + "}" + t;
    assert s[|x|] == '}';
    assert s[..|x|] == x;
    assert '}' in s;
  }

  lemma Regroup(a: string, b: string, c: string, d: string)
    ensures a + (b + c + d) == a + b + c + d
  {
  }

  lemma HasIdTail(w: string)
    requires w != [] && HasId(w[1..])
    ensures HasId(w)
  {
    HasIdShift(w[1..], [w[0]]);
    assert [w[0]] + w[1..] == w;
  }

  /**
   * Text with no `}` and no `id` before a `}` is copied through: no match can
   * start inside it, because the next `}` closes every brace it opens.
   */
  lemma {:induction false} CopyUpToClose(w: string, t: string, v: string)
    requires '}' !in w && !HasId(w)
    ensures SubstituteIds(w + "}" + t, v) == w + "}" + SubstituteIds(t, v)
    decreases |w|
  {
    var s := w + "}" + t;
    if w == [] {
      assert s == "}" + t;
      assert s[1..] == t;
    } else {
      var rest := w[1..] + "}" + t;
      assert s[1..] == rest;
      CopyStep(w, t, v);
      CopyUpToClose(w[1..], t, v);
      Regroup([w[0]], w[1..], "}", SubstituteIds(t, v));
      assert [w[0]] + w[1..] == w;
    }
  }

  /** The first character of such text is copied, whether or not it opens a brace. */
  lemma CopyStep(w: string, t: string, v: string)
    requires w != [] && '}' !in w && !HasId(w)
    ensures SubstituteIds(w + "}" + t, v) == [w[0]] + SubstituteIds(w[1..] + "}" + t, v)
    ensures '}' !in w[1..] && !HasId(w[1..])
  {
    var s := w + "}" + t;
    assert s[1..] == w[1..] + "}" + t;
    assert s[0] == w[0];
    assert !HasId(w[1..]) by {
      if HasId(w[1..]) {
        HasIdTail(w);
      }
    }
    FirstCloseAt(w[1..], t);
    assert s[1..1 + (|w| - 1)] == w[1..];
  }

  /** A text without `}` stays without `}` when the value has none. */
  lemma {:induction false} SubstituteNoClose(url: string, v: string)
    requires '}' !in url && '}' !in v
    ensures '}' !in SubstituteIds(url, v)
    decreases |url|
  {
    if url != [] {
      SubstituteNoClose(url[1..], v);
    }
  }

  /**
   * `generate_id_variants` leaves no placeholder behind: with a value that has
   * no braces, the substituted URL no longer matches the pattern.
   */
  lemma {:induction false} SubstituteRemovesAll(url: string, v: string)
    requires NoBraces(v)
    ensures !HasIdParameter(SubstituteIds(url, v))
    decreases |url|
  {
    if url != [] {
      var c := FirstClose(url[1..]);
      if url[0] == '{' && c >= 0 && HasId(url[1..1 + c]) {
        var rest := url[c + 2..];
        SubstituteRemovesAll(rest, v);
        forall p, q | Placeholder(v + SubstituteIds(rest, v), p, q) ensures false {
          PlaceholderBehind(v, SubstituteIds(rest, v), p, q);
        }
      } else {
        var tail := SubstituteIds(url[1..], v);
        SubstituteRemovesAll(url[1..], v);
        var r := [url[0]] + tail;
        forall p, q | Placeholder(r, p, q) ensures false {
          if p >= 1 {
            assert r[1..] == tail;
            PlaceholderUnshift(r, p, q);
          } else {
            FrontNotPlaceholder(url, v, q);
          }
        }
      }
    }
  }

  /** A `{` at the front that did not match stays unmatched after substitution. */
  lemma FrontNotPlaceholder(url: string, v: string, q: int)
    requires url != [] && NoBraces(v)
    requires !(url[0] == '{' && FirstClose(url[1..]) >= 0 && HasId(url[1..1 + FirstClose(url[1..])]))
    ensures !Placeholder([url[0]] + SubstituteIds(url[1..], v), 0, q)
  {
    if url[0] == '{' {
      var tail := url[1..];
      var c := FirstClose(tail);
      assert [url[0]] == "{";
      if c == -1 {
        FrontUnclosed(tail, v, q);
      } else {
        assert tail[..c] == url[1..1 + c];
        FrontClosedBefore(tail, v, q);
      }
    }
  }

  /** The same, when the tail has a `}` and no `id` before its first one. */
  lemma FrontClosedBefore(tail: string, v: string, q: int)
    requires NoBraces(v) && FirstClose(tail) >= 0 && !HasId(tail[..FirstClose(tail)])
    ensures !Placeholder("{" + SubstituteIds(tail, v), 0, q)
  {
    var c := FirstClose(tail);
    var w, t := tail[..c], tail[c + 1..];
    SplitAtClose(tail, c);
    CopyUpToClose(w, t, v);
    FrontClosed(w, SubstituteIds(t, v), q);
  }

  lemma SplitAtClose(s: string, c: int)
    requires 0 <= c < |s| && s[c] == '}'
    ensures s == s[..c] + "}" + s[c + 1..]
  {
  }

  lemma FrontUnclosed(tail: string, v: string, q: int)
    requires '}' !in tail && NoBraces(v)
    ensures !Placeholder("{" + SubstituteIds(tail, v), 0, q)
  {
    SubstituteNoClose(tail, v);
    var r := "{" + SubstituteIds(tail, v);
    if 0 < q < |r| {
      assert r[q] == SubstituteIds(tail, v)[q - 1];
    }
  }

  lemma FrontClosed(w: string, rest: string, q: int)
    requires '}' !in w && !HasId(w)
    ensures !Placeholder("{" + (w + "}" + rest), 0, q)
  {
    var r := "{" + (w + "}" + rest);
    if 1 <= q <= |w| {
      assert r[q] == w[q - 1];
    } else if q == |w| + 1 {
      assert r[1..q] == w;
    } else if |w| + 1 < q < |r| {
      assert r[1..q][|w|] == '}';
    }
  }

  /** With a brace-free value, a URL changes exactly when it has an id placeholder. */
  lemma SubstituteChangesIff(url: string, v: string)
    requires NoBraces(v)
    ensures SubstituteIds(url, v) != url <==> HasIdParameter(url)
  {
    if HasIdParameter(url) {
      SubstituteRemovesAll(url, v);
    } else {
      SubstituteNothing(url, v);
    }
  }

  /** The values `generate_id_variants` tries, as `str()` renders them. */
  const IdValues: seq<string> := ["1", "2", "3", "me", "current", "admin"]

  lemma IdValuesBraceFree(values: seq<string>)
    requires forall i :: 0 <= i < |values| ==> forall k :: 0 <= k < |values[i]| ==> 'a' <= values[i][k] <= 'z' || '0' <= values[i][k] <= '9'
    ensures forall i :: 0 <= i < |values| ==> NoBraces(values[i])
  {
    forall i | 0 <= i < |values| ensures NoBraces(values[i]) {
      forall k | 0 <= k < |values[i]| ensures values[i][k] != '{' && values[i][k] != '}' {
      }
    }
  }

  /** One substituted URL per value, in order. */
  method IdVariantsFor(url: string, values: seq<string>) returns (variants: seq<string>)
    ensures |variants| == |values|
    ensures forall i :: 0 <= i < |values| ==> variants[i] == SubstituteIds(url, values[i])
  {
    variants := [];
    for i := 0 to |values|
      invariant |variants| == i
      invariant forall k :: 0 <= k < i ==> variants[k] == SubstituteIds(url, values[k])
    {
      variants := variants + [SubstituteIds(url, values[i])];
    }
  }

  /** `generate_id_variants`: six URLs, for 1, 2, 3, me, current and admin. */
  method GenerateIdVariants(url: string) returns (variants: seq<string>)
    ensures |variants| == 6
    ensures forall i :: 0 <= i < 6 ==> variants[i] == SubstituteIds(url, IdValues[i])
  {
    variants := IdVariantsFor(url, IdValues);
  }

  /** Every variant is free of id placeholders, and differs from the URL exactly when it had one. */
  lemma VariantsResolved(url: string)
    ensures forall i :: 0 <= i < |IdValues| ==> !HasIdParameter(SubstituteIds(url, IdValues[i]))
    ensures forall i :: 0 <= i < |IdValues| ==> (SubstituteIds(url, IdValues[i]) != url <==> HasIdParameter(url))
  {
    IdValuesBraceFree(IdValues);
    forall i | 0 <= i < |IdValues|
      ensures !HasIdParameter(SubstituteIds(url, IdValues[i]))
      ensures SubstituteIds(url, IdValues[i]) != url <==> HasIdParameter(url)
    {
      SubstituteRemovesAll(url, IdValues[i]);
      SubstituteChangesIff(url, IdValues[i]);
    }
  }

  // ------------------------------------------------------- method filtering

  /** The HTTP methods of a Path Item; `trace` is not among them. */
  const HttpMethods: seq<string> := ["get", "post", "put", "delete", "patch", "head", "options"]

  /**
   * A path of the specification with the keys of its Path Item, in order, or a
   * path whose value is not a JSON object (an `x-` extension may hold a string,
   * a number, an array or `null`), on which `.keys()` raises.
   */
  datatype PathItem = PathItem(endpoint: string, keys: seq<string>) | NotAnObject(endpoint: string)

  /** An endpoint to probe: its full URL and its lower-case methods. */
  datatype Endpoint = Endpoint(url: string, methods: seq<string>)

  /** The keys that name an HTTP method in any case, lower-cased, in order. */
  function MethodsOf(keys: seq<string>): seq<string>
  {
    if keys == [] then []
    else
      var n := |keys| - 1;
      MethodsOf(keys[..n]) + (if Lower(keys[n]) in HttpMethods then [Lower(keys[n])] else [])
  }

  predicate AllObjects(items: seq<PathItem>)
  {
    forall i :: 0 <= i < |items| ==> items[i].PathItem?
  }

  /** How many paths the loop handles before one whose value is not an object. */
  function ObjectRun(items: seq<PathItem>): (r: nat)
    ensures r <= |items|
    ensures forall j :: 0 <= j < r ==> items[j].PathItem?
    ensures r < |items| ==> items[r].NotAnObject?
  {
    if items == [] || items[0].NotAnObject? then 0
    else
      var r := ObjectRun(items[1..]);
      assert forall j :: 1 <= j < r + 1 ==> items[j] == items[1..][j - 1];
      r + 1
  }

  /** Only object-valued paths: the loop handles them all. */
  lemma {:induction false} ObjectRunAll(items: seq<PathItem>)
    requires AllObjects(items)
    ensures ObjectRun(items) == |items|
  {
    if items != [] {
      assert AllObjects(items[1..]) by {
        forall i | 0 <= i < |items| - 1 ensures items[1..][i].PathItem? {
          assert items[1..][i] == items[i + 1];
        }
      }
      ObjectRunAll(items[1..]);
    }
  }

  /** The endpoints of a specification: one per path with at least one method. */
  function Endpoints(base: string, items: seq<PathItem>): seq<Endpoint>
    requires AllObjects(items)
  {
    if items == [] then []
    else
      var n := |items| - 1;
      var ms := MethodsOf(items[n].keys);
      Endpoints(base, items[..n]) + (if ms != [] then [Endpoint(base + items[n].endpoint, ms)] else [])
  }

  /** The filtering loop: upper-cased method names are kept, then lower-cased again. */
  method FilterMethods(keys: seq<string>) returns (methods: seq<string>)
    ensures methods == MethodsOf(keys)
  {
    var upper := CollectUpper(keys);
    methods := LowerEach(upper);
  }

  /** The first comprehension: the upper-cased keys that name a method. */
  method CollectUpper(keys: seq<string>) returns (upper: seq<string>)
    ensures MethodsOf(keys) == LowerAll(upper)
  {
    upper := [];
    for i := 0 to |keys|
      invariant MethodsOf(keys[..i]) == LowerAll(upper)
    {
      assert keys[..i + 1][..i] == keys[..i];
      if Lower(keys[i]) in HttpMethods {
        LowerOfUpper(keys[i]);
        LowerAllAppend(upper, Upper(keys[i]));
        upper := upper + [Upper(keys[i])];
      }
    }
    assert keys[..|keys|] == keys;
  }

  /** The second comprehension: each entry lower-cased again. */
  method LowerEach(upper: seq<string>) returns (methods: seq<string>)
    ensures methods == LowerAll(upper)
  {
    methods := [];
    for i := 0 to |upper|
      invariant methods == LowerAll(upper[..i])
    {
      assert upper[..i + 1] == upper[..i] + [upper[i]];
      LowerAllAppend(upper[..i], upper[i]);
      methods := methods + [Lower(upper[i])];
    }
    assert upper[..|upper|] == upper;
  }

  function LowerAll(xs: seq<string>): (r: seq<string>)
    ensures |r| == |xs|
  {
    if xs == [] then [] else LowerAll(xs[..|xs| - 1]) + [Lower(xs[|xs| - 1])]
  }

  lemma LowerAllAppend(xs: seq<string>, x: string)
    ensures LowerAll(xs + [x]) == LowerAll(xs) + [Lower(x)]
  {
    assert (xs + [x])[..|xs|] == xs;
  }

  /**
   * The loop over the paths of a specification. A path whose value is not an
   * object makes `.keys()` raise: the loop stops there, the endpoints found so
   * far are kept, and `finished` is false (the caller then moves on to its next
   * candidate URL instead of setting `spec_found`).
   */
  method ExtractEndpoints(base: string, items: seq<PathItem>) returns (paths: seq<Endpoint>, finished: bool)
    ensures paths == Endpoints(base, items[..ObjectRun(items)])
    ensures finished <==> ObjectRun(items) == |items|
  {
    paths := [];
    var i := 0;
    while i < |items|
      invariant i <= ObjectRun(items)
      invariant paths == Endpoints(base, items[..i])
    {
      if items[i].NotAnObject? {
        return paths, false;
      }
      assert items[..i + 1][..i] == items[..i];
      var methods := FilterMethods(items[i].keys);
      if |methods| > 0 {
        paths := paths + [Endpoint(base + items[i].endpoint, methods)];
      }
      i := i + 1;
    }
    finished := true;
  }

  /** A method is kept exactly when some key names it in any case; `trace` never is. */
  lemma {:induction false} MethodsOfIff(keys: seq<string>, m: string)
    ensures m in MethodsOf(keys) <==> m in HttpMethods && exists k :: k in keys && Lower(k) == m
  {
    if keys != [] {
      var n := |keys| - 1;
      MethodsOfIff(keys[..n], m);
      assert keys == keys[..n] + [keys[n]];
      if exists k :: k in keys && Lower(k) == m {
        var k :| k in keys && Lower(k) == m;
        if k != keys[n] {
          assert k in keys[..n];
        }
      }
    }
  }

  lemma TraceDropped(keys: seq<string>)
    ensures "trace" !in MethodsOf(keys)
  {
    MethodsOfIff(keys, "trace");
  }

  /** Endpoints are exactly the paths with some method, under the base URL. */
  lemma {:induction false} EndpointsIff(base: string, items: seq<PathItem>, e: Endpoint)
    requires AllObjects(items)
    ensures e in Endpoints(base, items)
        <==> exists it :: it in items && it.PathItem? && MethodsOf(it.keys) != []
                          && e == Endpoint(base + it.endpoint, MethodsOf(it.keys))
  {
    if items != [] {
      var n := |items| - 1;
      EndpointsIff(base, items[..n], e);
      assert items == items[..n] + [items[n]];
    }
  }

  /**
   * When a path's value is not an object, exactly the method-bearing paths
   * before it are listed; with only object values, every one of them is.
   */
  lemma EndpointsBeforeRaise(base: string, items: seq<PathItem>, e: Endpoint)
    ensures AllObjects(items[..ObjectRun(items)])
    ensures e in Endpoints(base, items[..ObjectRun(items)])
        <==> exists j :: 0 <= j < ObjectRun(items) && MethodsOf(items[j].keys) != []
                         && e == Endpoint(base + items[j].endpoint, MethodsOf(items[j].keys))
    ensures AllObjects(items) ==> items[..ObjectRun(items)] == items
  {
    var k := ObjectRun(items);
    var front := items[..k];
    assert forall j :: 0 <= j < k ==> front[j] == items[j];
    EndpointsIff(base, front, e);
    if e in Endpoints(base, front) {
      var it :| it in front && it.PathItem? && MethodsOf(it.keys) != []
                && e == Endpoint(base + it.endpoint, MethodsOf(it.keys));
      var j :| 0 <= j < k && front[j] == it;
    }
    if AllObjects(items) {
      ObjectRunAll(items);
    }
  }

  // ------------------------------------------------------ candidate list

  /**
   * The URLs probed for one endpoint: for a GET endpoint the URL itself, then
   * its variants when it has an id placeholder; nothing for other endpoints.
   */
  function CandidateUrls(url: string, methods: seq<string>, values: seq<string>): (r: seq<string>)
    ensures |r| <= 1 + |values|
  {
    if "get" !in methods then []
    else [url] + (if HasIdParameter(url) then seq(|values|, i requires 0 <= i < |values| => SubstituteIds(url, values[i])) else [])
  }

  /** `check_single_endpoint`: the URL and its six variants, or the URL alone. */
  lemma EndpointCandidates(url: string, methods: seq<string>)
    requires "get" in methods
    ensures var r := CandidateUrls(url, methods, IdValues);
      r[0] == url
      && (HasIdParameter(url) ==> |r| == 7 && forall i :: 1 <= i < 7 ==> !HasIdParameter(r[i]) && r[i] != url)
      && (!HasIdParameter(url) ==> r == [url])
  {
    VariantsResolved(url);
  }
}
