/**
 * What `graphql_checker_v3.py` adds to the shared checker: the name of the
 * file a successful probe is saved under, derived from the endpoint URL.
 */
module GraphqlCheckerV3 {

  import opened Text

  /** The URL with `://` and then every `/` replaced by `_`. */
  function UrlStem(url: string): (r: string)
    ensures '/' !in r
  {
    ReplaceCharRemoves(ReplaceAll(url, "://", "_"), '/', "_");
    ReplaceAll(ReplaceAll(url, "://", "_"), "/", "_")
  }

  /** `<url stem>__<operation>.txt`. */
  function ResultFilename(url: string, opName: string): (r: string)
    ensures StartsWith(r, UrlStem(url))
    ensures EndsWith(r, "__" + opName + ".txt")
  {
    var stem := UrlStem(url);
    var r := stem + "__" + opName + ".txt";
    assert r == stem + ("__" + opName + ".txt");
    assert r[..|stem|] == stem;
    r
  }

  /** A URL with neither `:` nor `/` is its own stem. */
  lemma StemOfPlainUrl(url: string)
    requires '/' !in url && ':' !in url
    ensures UrlStem(url) == url
  {
    ReplaceAbsent(url, "://");
    ReplaceAbsent(url, "/");
  }

  lemma {:induction false} ReplaceAbsent(s: string, pat: string)
    requires |pat| > 0 && pat[0] !in s
    ensures ReplaceAll(s, pat, "_") == s
  {
    if |s| >= |pat| {
      assert s[0] != pat[0];
      ReplaceAbsent(s[1..], pat);
    }
  }

  /** A prefix free of the pattern's first character is copied unchanged. */
  lemma {:induction false} ReplaceSkip(a: string, b: string, pat: string, rep: string)
    requires |pat| > 0 && pat[0] !in a
    ensures ReplaceAll(a + b, pat, rep) == a + ReplaceAll(b, pat, rep)
    decreases |a|
  {
    if a != [] {
      var ab := a + b;
      if |ab| >= |pat| {
        assert ab[..|pat|][0] == ab[0] == a[0] != pat[0];
        assert ab[1..] == a[1..] + b;
        ReplaceSkip(a[1..], b, pat, rep);
        assert ReplaceAll(ab, pat, rep) == [ab[0]] + ReplaceAll(ab[1..], pat, rep);
        assert [a[0]] + (a[1..] + ReplaceAll(b, pat, rep)) == a + ReplaceAll(b, pat, rep);
      } else {
        assert |b| < |pat|;
      }
    } else {
      assert a + b == b;
    }
  }

  /** An occurrence at the front is replaced. */
  lemma ReplaceHead(pat: string, b: string, rep: string)
    requires |pat| > 0
    ensures ReplaceAll(pat + b, pat, rep) == rep + ReplaceAll(b, pat, rep)
  {
    assert (pat + b)[..|pat|] == pat;
    assert (pat + b)[|pat|..] == b;
  }

  /** `scheme://host/path` is saved under the stem `scheme_host_path`. */
  lemma StemOfUrl(scheme: string, host: string, path: string)
    requires ':' !in scheme && '/' !in scheme && ':' !in host && '/' !in host && ':' !in path && '/' !in path
    ensures UrlStem(scheme + "://" + host + "/" + path) == scheme + "_" + host + "_" + path
  {
    var rest := host + "/" + path;
    assert ':' !in rest;
    assert scheme + "://" + host + "/" + path == scheme + ("://" + rest);
    ReplaceSkip(scheme, "://" + rest, "://", "_");
    ReplaceHead("://", rest, "_");
    ReplaceAbsent(rest, "://");
    var once := scheme + "_" + host;
    assert ReplaceAll(scheme + "://" + host + "/" + path, "://", "_") == once + ("/" + path);
    assert '/' !in once;
    ReplaceSkip(once, "/" + path, "/", "_");
    ReplaceHead("/", path, "_");
    ReplaceAbsent(path, "/");
  }

  /** The file stays inside the results directory whenever the operation name has no `/`. */
  lemma FilenameHasNoSlash(url: string, opName: string)
    requires '/' !in opName
    ensures '/' !in ResultFilename(url, opName)
  {
    var stem := UrlStem(url);
    var tail := "__" + opName + ".txt";
    assert ResultFilename(url, opName) == stem + tail;
    assert '/' !in tail by {
      assert tail == "__" + opName + ".txt";
      forall i | 0 <= i < |tail| ensures tail[i] != '/' {
        if 2 <= i < 2 + |opName| {
          assert tail[i] == opName[i - 2];
        }
      }
    }
  }
}
