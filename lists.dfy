/** Order-preserving removal of duplicates, as `list(dict.fromkeys(xs))` does. */
module Lists {

  predicate NoDuplicates<T(==)>(xs: seq<T>)
  {
    forall i, j :: 0 <= i < j < |xs| ==> xs[i] != xs[j]
  }

  /** Keeps the first occurrence of every element, in order. */
  function Dedup<T(==)>(xs: seq<T>): seq<T>
    decreases |xs|
  {
    if xs == [] then []
    else
      var d := Dedup(xs[..|xs| - 1]);
      if xs[|xs| - 1] in d then d else d + [xs[|xs| - 1]]
  }

  /** The result has no duplicates and holds exactly the elements of the input. */
  lemma {:induction false} DedupSound<T>(xs: seq<T>)
    ensures NoDuplicates(Dedup(xs))
    ensures forall x :: x in Dedup(xs) <==> x in xs
    decreases |xs|
  {
    if xs != [] {
      var init := xs[..|xs| - 1];
      DedupSound(init);
      assert xs == init + [xs[|xs| - 1]];
    }
  }

  /** De-duplicating a longer list extends the de-duplication of its prefix. */
  lemma {:induction false} DedupPrefix<T>(xs: seq<T>, ys: seq<T>)
    ensures |Dedup(xs)| <= |Dedup(xs + ys)|
    ensures Dedup(xs + ys)[..|Dedup(xs)|] == Dedup(xs)
    decreases |ys|
  {
    if ys != [] {
      var ys' := ys[..|ys| - 1];
      DedupPrefix(xs, ys');
      assert (xs + ys)[..|xs + ys| - 1] == xs + ys';
    } else {
      assert xs + ys == xs;
    }
  }

  /** A list without duplicates is left as it is. */
  lemma {:induction false} DedupIdentity<T>(xs: seq<T>)
    requires NoDuplicates(xs)
    ensures Dedup(xs) == xs
    decreases |xs|
  {
    if xs != [] {
      var init := xs[..|xs| - 1];
      DedupIdentity(init);
      DedupSound(init);
      assert xs[|xs| - 1] !in init;
    }
  }

  /** Appending only elements already present changes nothing once duplicates are dropped. */
  lemma {:induction false} DedupAbsorbs<T>(xs: seq<T>, ys: seq<T>)
    requires NoDuplicates(xs) && forall y :: y in ys ==> y in xs
    ensures Dedup(xs + ys) == xs
    decreases |ys|
  {
    if ys == [] {
      assert xs + ys == xs;
      DedupIdentity(xs);
    } else {
      var init := ys[..|ys| - 1];
      assert forall y :: y in init ==> y in ys;
      DedupAbsorbs(xs, init);
      assert (xs + ys)[..|xs + ys| - 1] == xs + init;
      assert ys[|ys| - 1] in ys;
    }
  }

  /** Extending a prefix by the next element gives the next prefix. */
  lemma SliceExtend<T>(s: seq<T>, j: int)
    requires 0 <= j < |s|
    ensures s[..j] + [s[j]] == s[..j + 1]
  {
  }
}
