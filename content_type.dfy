/** `is_valid_content_type` of `check-content-type.py`. */
module ContentType {

  import opened Wrappers
  import opened Text

  /** A missing header is never valid; otherwise the lower-cased header must mention JSON or plain text. */
  function IsValidContentType(contentType: Option<string>): (r: bool)
    ensures contentType.None? ==> !r
  {
    match contentType
    case None => false
    case Some(s) => Contains(Lower(s), "application/json") || Contains(Lower(s), "text/plain")
  }

  /** Equal letter by letter once both are lower-cased. */
  predicate EqualIgnoringCase(a: string, b: string)
  {
    |a| == |b| && forall k :: 0 <= k < |a| ==> LowerChar(a[k]) == LowerChar(b[k])
  }

  /** The window of `s` at `i` spells `t` up to letter case. */
  predicate MatchesAt(s: string, t: string, i: int)
  {
    0 <= i && i + |t| <= |s| && EqualIgnoringCase(s[i..i + |t|], t)
  }

  /** Reference definition: some window of `s` spells `t` up to letter case. */
  predicate ContainsIgnoringCase(s: string, t: string)
  {
    exists i :: 0 <= i <= |s| - |t| && MatchesAt(s, t, i)
  }

  predicate IsLowerCase(t: string)
  {
    forall k :: 0 <= k < |t| ==> LowerChar(t[k]) == t[k]
  }

  /** For a lower-case needle, searching the lower-cased text is searching up to case. */
  lemma ContainsLowerIff(s: string, t: string)
    requires IsLowerCase(t)
    ensures Contains(Lower(s), t) <==> ContainsIgnoringCase(s, t)
  {
    if Contains(Lower(s), t) {
      var i :| 0 <= i <= |Lower(s)| - |t| && OccursAt(Lower(s), t, i);
      assert forall k :: 0 <= k < |t| ==> Lower(s)[i + k] == t[k];
      assert MatchesAt(s, t, i);
    }
    if ContainsIgnoringCase(s, t) {
      var i :| 0 <= i <= |s| - |t| && MatchesAt(s, t, i);
      var w := s[i..i + |t|];
      assert forall k :: 0 <= k < |t| ==> w[k] == s[i + k];
      assert forall k :: 0 <= k < |t| ==> Lower(s)[i + k] == LowerChar(s[i + k]) == t[k];
      assert Lower(s)[i..i + |t|] == t;
      assert OccursAt(Lower(s), t, i);
    }
  }

  /**
   * A header is valid exactly when it contains `application/json` or
   * `text/plain` in any mixture of letter case.
   */
  lemma ValidIff(s: string)
    ensures IsValidContentType(Some(s))
        <==> ContainsIgnoringCase(s, "application/json") || ContainsIgnoringCase(s, "text/plain")
  {
    ContainsLowerIff(s, "application/json");
    ContainsLowerIff(s, "text/plain");
  }

  /**
   * Whatever surrounds it, a spelling of `application/json` or of `text/plain`
   * in any letter case makes the header valid.
   */
  lemma ValidWithNeedle(a: string, m: string, b: string)
    requires EqualIgnoringCase(m, "application/json") || EqualIgnoringCase(m, "text/plain")
    ensures IsValidContentType(Some(a + m + b))
  {
    var s := a + m + b;
    assert s[|a|..|a| + |m|] == m;
    if EqualIgnoringCase(m, "application/json") {
      assert MatchesAt(s, "application/json", |a|);
    } else {
      assert MatchesAt(s, "text/plain", |a|);
    }
    ValidIff(s);
  }

  /** An empty header is not valid. */
  lemma EmptyIsInvalid()
    ensures !IsValidContentType(Some(""))
  {
  }
}
