/**
 * generate.py: the base URLs of a host and of every parent domain that
 * still has at least three labels, sorted.
 *
 * `urlparse` is not modelled: the scheme and the (already lower-cased)
 * host name are the inputs.
 */
module Generate {
  import opened Text
  import opened Lists

  /** `hostname.split('.')`. */
  function Labels(hostname: string): (r: seq<string>)
    ensures |r| >= 1
  {
    Split(hostname, '.')
  }

  /** The URL for the labels from index `i` on: `'.'.join(hostname_parts[i:])`. */
  function SuffixUrl(scheme: string, parts: seq<string>, i: int): string
    requires 0 <= i <= |parts|
  {
    Origin(scheme, Join(parts[i..], "."))
  }

  /** What the loop has collected after its first `k` rounds. */
  function LoopUrls(scheme: string, parts: seq<string>, k: nat): set<string>
    requires k <= |parts|
  {
    if k == 0 then {} else LoopUrls(scheme, parts, k - 1) + {SuffixUrl(scheme, parts, k - 1)}
  }

  /** The loop collects exactly the suffix URLs of its rounds. */
  lemma {:induction false} LoopUrlsIff(scheme: string, parts: seq<string>, k: nat, u: string)
    requires k <= |parts|
    ensures u in LoopUrls(scheme, parts, k) <==> exists i :: 0 <= i < k && u == SuffixUrl(scheme, parts, i)
  {
    if k > 0 {
      LoopUrlsIff(scheme, parts, k - 1, u);
      if u == SuffixUrl(scheme, parts, k - 1) {
        assert 0 <= k - 1 < k;
      }
    }
  }

  /** The number of rounds of `for i in range(len(hostname_parts) - 2)`. */
  function Rounds(n: int): nat
  {
    if n >= 2 then n - 2 else 0
  }

  /** The set `base_urls` holds once the loop and the final `add` have run. */
  function Variants(scheme: string, hostname: string): set<string>
  {
    var parts := Labels(hostname);
    LoopUrls(scheme, parts, Rounds(|parts|)) + {Origin(scheme, hostname)}
  }

  /** Every element precedes every later one in Python's string order. */
  predicate StrictlySorted(xs: seq<string>)
  {
    forall i, j :: 0 <= i < j < |xs| ==> Below(xs[i], xs[j])
  }

  lemma SortedHasNoDuplicates(xs: seq<string>)
    requires StrictlySorted(xs)
    ensures NoDuplicates(xs)
  {
    forall i, j | 0 <= i < j < |xs| ensures xs[i] != xs[j] {
      BelowIrreflexive(xs[i]);
    }
  }

  /** `m` is in `s` and precedes every other element of `s`. */
  predicate IsLeast(m: string, s: set<string>)
  {
    m in s && forall x :: x in s && x != m ==> Below(m, x)
  }

  /** A finite non-empty set of strings has a least element. */
  lemma {:induction false} LeastExists(s: set<string>)
    requires s != {}
    ensures exists m :: IsLeast(m, s)
    decreases |s|
  {
    var y :| y in s;
    if s == {y} {
      assert IsLeast(y, s);
    } else {
      var rest := s - {y};
      LeastExists(rest);
      var m :| IsLeast(m, rest);
      BelowTotal(y, m);
      if Below(y, m) {
        forall x | x in s && x != y ensures Below(y, x) {
          if x != m {
            assert x in rest;
            BelowTransitive(y, m, x);
          }
        }
        assert IsLeast(y, s);
      } else {
        forall x | x in s && x != m ensures Below(m, x) {
          if x != y {
            assert x in rest;
          }
        }
        assert IsLeast(m, s);
      }
    }
  }

  /** `sorted(s)` for a set of strings: its elements, each once, in ascending order. */
  method SortedSet(s: set<string>) returns (r: seq<string>)
    ensures forall x :: x in r <==> x in s
    ensures StrictlySorted(r)
    ensures |r| == |s|
  {
    r := [];
    var rest := s;
    while rest != {}
      invariant rest <= s
      invariant forall x :: x in r <==> x in s && x !in rest
      invariant StrictlySorted(r)
      invariant forall i, y :: 0 <= i < |r| && y in rest ==> Below(r[i], y)
      invariant |r| + |rest| == |s|
      decreases |rest|
    {
      LeastExists(rest);
      var m :| IsLeast(m, rest);
      r := r + [m];
      rest := rest - {m};
    }
  }

  /** generate_variants: the loop over the label suffixes, the host itself, then the sort. */
  method GenerateVariants(scheme: string, hostname: string) returns (r: seq<string>)
    ensures forall u :: u in r <==> u in Variants(scheme, hostname)
    ensures StrictlySorted(r) && NoDuplicates(r)
    ensures |r| == |Variants(scheme, hostname)|
  {
    var parts := Split(hostname, '.');
    var baseUrls: set<string> := {};
    for i := 0 to Rounds(|parts|)
      invariant baseUrls == LoopUrls(scheme, parts, i)
    {
      baseUrls := baseUrls + {Origin(scheme, Join(parts[i..], "."))};
    }
    baseUrls := baseUrls + {Origin(scheme, hostname)};
    r := SortedSet(baseUrls);
    SortedHasNoDuplicates(r);
  }

  // ------------------------------------------------------------ properties

  /** The host's own URL is always in the result. */
  lemma HostIncluded(scheme: string, hostname: string)
    ensures Origin(scheme, hostname) in Variants(scheme, hostname)
  {
  }

  /** Every other entry is the URL of a label suffix with at least three labels. */
  lemma EntriesAreSuffixes(scheme: string, hostname: string, u: string)
    requires u in Variants(scheme, hostname) && u != Origin(scheme, hostname)
    ensures exists i :: 0 <= i && i + 3 <= |Labels(hostname)|
                        && u == SuffixUrl(scheme, Labels(hostname), i)
  {
    var parts := Labels(hostname);
    LoopUrlsIff(scheme, parts, Rounds(|parts|), u);
    var i :| 0 <= i < Rounds(|parts|) && u == SuffixUrl(scheme, parts, i);
    assert i + 3 <= |parts|;
  }

  /** Joining dot-free labels with "." writes one dot fewer than there are labels. */
  lemma {:induction false} JoinDots(ps: seq<string>)
    requires |ps| >= 1
    requires forall k :: 0 <= k < |ps| ==> '.' !in ps[k]
    ensures multiset(Join(ps, "."))['.'] == |ps| - 1
  {
    if |ps| == 1 {
      assert multiset(ps[0])['.'] == 0;
    } else {
      JoinDots(ps[1..]);
      assert Join(ps, ".") == ps[0] + "." + Join(ps[1..], ".");
      assert multiset(ps[0])['.'] == 0;
    }
  }

  lemma UrlInjective(scheme: string, a: string, b: string)
    requires Origin(scheme, a) == Origin(scheme, b)
    ensures a == b
  {
    var p := scheme + "://";
    assert Origin(scheme, a)[|p|..] == a;
    assert Origin(scheme, b)[|p|..] == b;
  }

  /** Different label suffixes give different URLs, since they hold different numbers of dots. */
  lemma SuffixUrlsDistinct(scheme: string, parts: seq<string>, i: int, j: int)
    requires 0 <= i < j < |parts|
    requires forall k :: 0 <= k < |parts| ==> '.' !in parts[k]
    ensures SuffixUrl(scheme, parts, i) != SuffixUrl(scheme, parts, j)
  {
    JoinDots(parts[i..]);
    JoinDots(parts[j..]);
    if SuffixUrl(scheme, parts, i) == SuffixUrl(scheme, parts, j) {
      UrlInjective(scheme, Join(parts[i..], "."), Join(parts[j..], "."));
    }
  }

  /** The first `k` loop rounds add `k` different URLs. */
  lemma {:induction false} LoopUrlsCount(scheme: string, parts: seq<string>, k: nat)
    requires k < |parts|
    requires forall m :: 0 <= m < |parts| ==> '.' !in parts[m]
    ensures |LoopUrls(scheme, parts, k)| == k
  {
    if k > 0 {
      var before := LoopUrls(scheme, parts, k - 1);
      var last := SuffixUrl(scheme, parts, k - 1);
      LoopUrlsCount(scheme, parts, k - 1);
      assert last !in before by {
        LoopUrlsIff(scheme, parts, k - 1, last);
        if last in before {
          var i :| 0 <= i < k - 1 && last == SuffixUrl(scheme, parts, i);
          SuffixUrlsDistinct(scheme, parts, i, k - 1);
        }
      }
    }
  }

  /**
   * The result has `n - 2` entries for a host of `n >= 3` labels (the first
   * suffix is the host itself) and a single entry otherwise.
   */
  lemma VariantsCount(scheme: string, hostname: string)
    ensures |Variants(scheme, hostname)|
            == if |Labels(hostname)| >= 3 then |Labels(hostname)| - 2 else 1
  {
    var parts := Labels(hostname);
    var n := |parts|;
    SplitPiecesFree(hostname, '.');
    LoopUrlsCount(scheme, parts, Rounds(n));
    if n >= 3 {
      JoinSplit(hostname, '.');
      assert parts[0..] == parts;
      assert Origin(scheme, hostname) == SuffixUrl(scheme, parts, 0);
      LoopUrlsIff(scheme, parts, Rounds(n), Origin(scheme, hostname));
      assert Origin(scheme, hostname) in LoopUrls(scheme, parts, Rounds(n));
      assert Variants(scheme, hostname) == LoopUrls(scheme, parts, Rounds(n));
    } else {
      assert LoopUrls(scheme, parts, Rounds(n)) == {};
    }
  }

  /** Joining splits at any inner label boundary. */
  lemma {:induction false} JoinAt(ps: seq<string>, sep: string, i: int)
    requires 0 < i < |ps|
    ensures Join(ps, sep) == Join(ps[..i], sep) + sep + Join(ps[i..], sep)
  {
    if i == 1 {
      assert ps[..1] == [ps[0]];
      assert ps[1..] == ps[i..];
    } else {
      var tail := ps[1..];
      JoinAt(tail, sep, i - 1);
      assert tail[i - 1..] == ps[i..];
      assert tail[..i - 1] == ps[..i][1..];
      var a := Join(ps[..i][1..], sep);
      var b := Join(ps[i..], sep);
      JoinCons(ps, sep);
      JoinCons(ps[..i], sep);
      assert ps[..i][0] == ps[0];
      assert ps[0] + sep + (a + sep + b) == (ps[0] + sep + a) + sep + b;
    }
  }

  lemma JoinCons(ps: seq<string>, sep: string)
    requires |ps| >= 2
    ensures Join(ps, sep) == ps[0] + sep + Join(ps[1..], sep)
  {
  }

  /** Every suffix URL names a parent domain of the host: its text ends the host name. */
  lemma SuffixEndsHost(hostname: string, i: int)
    requires 0 <= i < |Labels(hostname)|
    ensures EndsWith(hostname, Join(Labels(hostname)[i..], "."))
  {
    var parts := Labels(hostname);
    JoinSplit(hostname, '.');
    var s := Join(parts[i..], ".");
    if i == 0 {
      assert parts[0..] == parts;
    } else {
      JoinAt(parts, ".", i);
      var front := Join(parts[..i], ".") + ".";
      assert hostname == front + s;
      assert hostname[|hostname| - |s|..] == s;
    }
  }
}
