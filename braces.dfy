/**
 * Curly-brace depth of a text. The JavaScript scanner counts it directly, and
 * the GraphQL selection builders must produce texts whose braces are well nested.
 */
module Braces {

  import Text

  function Delta(c: char): int
  {
    if c == '{' then 1 else if c == '}' then -1 else 0
  }

  /** Opening braces minus closing braces. */
  function Depth(s: string): int
    decreases |s|
  {
    if s == [] then 0 else Depth(s[..|s| - 1]) + Delta(s[|s| - 1])
  }

  lemma {:induction false} DepthConcat(a: string, b: string)
    ensures Depth(a + b) == Depth(a) + Depth(b)
    decreases |b|
  {
    if b == [] {
      assert a + b == a;
    } else {
      DepthConcat(a, b[..|b| - 1]);
      assert (a + b)[..|a + b| - 1] == a + b[..|b| - 1];
    }
  }

  predicate NoBraces(s: string)
  {
    '{' !in s && '}' !in s
  }

  lemma {:induction false} DepthNoBraces(s: string)
    requires NoBraces(s)
    ensures Depth(s) == 0
    decreases |s|
  {
    if s != [] {
      assert s[..|s| - 1] + [s[|s| - 1]] == s;
      DepthNoBraces(s[..|s| - 1]);
    }
  }

  /** Balanced, with never more than `n` braces open at once. */
  predicate Nested(s: string, n: int)
  {
    Depth(s) == 0 && forall k :: 0 <= k <= |s| ==> 0 <= Depth(s[..k]) <= n
  }

  lemma NestedWeaken(s: string, n: int, m: int)
    requires Nested(s, n) && n <= m
    ensures Nested(s, m)
  {
  }

  lemma NestedPlain(s: string, n: int)
    requires NoBraces(s) && 0 <= n
    ensures Nested(s, n)
  {
    DepthNoBraces(s);
    forall k | 0 <= k <= |s| ensures Depth(s[..k]) == 0 {
      DepthNoBraces(s[..k]);
    }
  }

  lemma NestedConcat(a: string, b: string, n: int)
    requires Nested(a, n) && Nested(b, n)
    ensures Nested(a + b, n)
  {
    DepthConcat(a, b);
    forall k | 0 <= k <= |a + b| ensures 0 <= Depth((a + b)[..k]) <= n {
      if k <= |a| {
        assert (a + b)[..k] == a[..k];
      } else {
        assert (a + b)[..k] == a + b[..k - |a|];
        DepthConcat(a, b[..k - |a|]);
      }
    }
  }

  /** Wrapping a text nested `n` deep in one pair of braces nests it `n + 1` deep. */
  lemma NestedWrap(s: string, n: int)
    requires Nested(s, n)
    ensures Nested("{" + s + "}", n + 1)
  {
    var w := "{" + s + "}";
    DepthConcat("{" + s, "}");
    DepthConcat("{", s);
    assert Depth("{") == 1 by { assert "{"[..0] == []; }
    assert Depth("}") == -1 by { assert "}"[..0] == []; }
    assert 0 <= Depth(s[..0]) <= n;
    forall k | 0 <= k <= |w| ensures 0 <= Depth(w[..k]) <= n + 1 {
      if k == 0 {
        assert w[..k] == [];
      } else if k <= |s| + 1 {
        assert w[..k] == "{" + s[..k - 1];
        DepthConcat("{", s[..k - 1]);
        assert 0 <= Depth(s[..k - 1]) <= n;
      } else {
        assert w[..k] == w;
        assert Depth(w) == 0;
      }
    }
  }

  /** The shape `name { inner }` that every selection builder emits. */
  lemma NestedBlock(name: string, inner: string, n: int)
    requires NoBraces(name) && Nested(inner, n) && 0 <= n
    ensures Nested(name + " { " + inner + " }", n + 1)
  {
    NestedPlain(name + " ", n + 1);
    NestedPlain(" ", n);
    NestedConcat(" ", inner, n);
    NestedConcat(" " + inner, " ", n);
    NestedWrap(" " + inner + " ", n);
    NestedConcat(name + " ", "{" + (" " + inner + " ") + "}", n + 1);
    assert name + " " + ("{" + (" " + inner + " ") + "}") == name + " { " + inner + " }";
  }

  lemma {:induction false} NestedJoin(parts: seq<string>, sep: string, n: int)
    requires forall i :: 0 <= i < |parts| ==> Nested(parts[i], n)
    requires NoBraces(sep) && 0 <= n
    ensures Nested(Text.Join(parts, sep), n)
  {
    if |parts| == 0 {
      NestedPlain("", n);
    } else if |parts| > 1 {
      NestedJoin(parts[1..], sep, n);
      NestedPlain(sep, n);
      NestedConcat(parts[0], sep, n);
      NestedConcat(parts[0] + sep, Text.Join(parts[1..], sep), n);
    }
  }
}
