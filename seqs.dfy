/** Order-preserving filters and subsequences, used to state which items of a list an
    operation kept. */
module Seqs {

  /** `[x for x in s if keep(x)]`. */
  function Filter<T(==,!new)>(s: seq<T>, keep: T -> bool): (r: seq<T>)
    ensures |r| <= |s|
    ensures forall x :: x in r <==> x in s && keep(x)
  {
    if s == [] then []
    else if keep(s[0]) then [s[0]] + Filter(s[1..], keep)
    else Filter(s[1..], keep)
  }

  /** `a` is `b` with some elements left out, the rest in their order. */
  predicate IsSubsequence<T(==)>(a: seq<T>, b: seq<T>)
    decreases |b|
  {
    a == [] || (b != [] && ((a[0] == b[0] && IsSubsequence(a[1..], b[1..])) || IsSubsequence(a, b[1..])))
  }

  lemma {:induction false} FilterIsSubsequence<T(!new)>(s: seq<T>, keep: T -> bool)
    ensures IsSubsequence(Filter(s, keep), s)
    decreases |s|
  {
    if s != [] {
      FilterIsSubsequence(s[1..], keep);
      var r := Filter(s, keep);
      if keep(s[0]) {
        assert r[0] == s[0] && r[1..] == Filter(s[1..], keep);
      }
    }
  }

  /** A subsequence of a prefix is a subsequence of the whole list. */
  lemma {:induction false} SubsequenceOfPrefix<T(!new)>(a: seq<T>, c: seq<T>, d: seq<T>)
    requires IsSubsequence(a, c)
    ensures IsSubsequence(a, c + d)
    decreases |c|
  {
    if a != [] {
      assert (c + d)[0] == c[0] && (c + d)[1..] == c[1..] + d;
      if a[0] == c[0] && IsSubsequence(a[1..], c[1..]) {
        SubsequenceOfPrefix(a[1..], c[1..], d);
      } else {
        SubsequenceOfPrefix(a, c[1..], d);
      }
    }
  }

  /** Filtering a list extended by one element. */
  lemma {:induction false} FilterSnoc<T(!new)>(s: seq<T>, x: T, keep: T -> bool)
    ensures Filter(s + [x], keep) == Filter(s, keep) + (if keep(x) then [x] else [])
    decreases |s|
  {
    if s == [] {
      assert [x][1..] == [];
    } else {
      assert (s + [x])[1..] == s[1..] + [x];
      FilterSnoc(s[1..], x, keep);
    }
  }

  /** Filtering a non-empty list, split at its last element. */
  lemma FilterOfLast<T(!new)>(s: seq<T>, keep: T -> bool)
    requires s != []
    ensures Filter(s, keep) == Filter(s[..|s| - 1], keep) + (if keep(s[|s| - 1]) then [s[|s| - 1]] else [])
  {
    FilterSnoc(s[..|s| - 1], s[|s| - 1], keep);
    assert s[..|s| - 1] + [s[|s| - 1]] == s;
  }

  /** Filtering a prefix keeps an ordered subsequence of the whole list. */
  lemma FilterOfPrefixIsSubsequence<T(!new)>(s: seq<T>, m: nat, keep: T -> bool)
    requires m <= |s|
    ensures IsSubsequence(Filter(s[..m], keep), s)
  {
    FilterIsSubsequence(s[..m], keep);
    SubsequenceOfPrefix(Filter(s[..m], keep), s[..m], s[m..]);
    assert s[..m] + s[m..] == s;
  }

  /** `[f(x) for x in s]`. */
  function Map<T, U>(s: seq<T>, f: T -> U): (r: seq<U>)
    ensures |r| == |s|
  {
    if s == [] then [] else [f(s[0])] + Map(s[1..], f)
  }

  lemma {:induction false} MapAt<T, U>(s: seq<T>, f: T -> U, i: nat)
    requires i < |s|
    ensures Map(s, f)[i] == f(s[i])
    decreases i
  {
    if i > 0 {
      MapAt(s[1..], f, i - 1);
    }
  }

  /** Mapping a list extended by one element. */
  lemma {:induction false} MapSnoc<T, U>(s: seq<T>, x: T, f: T -> U)
    ensures Map(s + [x], f) == Map(s, f) + [f(x)]
    decreases |s|
  {
    if s == [] {
      assert [x][1..] == [];
    } else {
      assert (s + [x])[1..] == s[1..] + [x];
      MapSnoc(s[1..], x, f);
    }
  }

  /** A prefix one longer is the prefix with the next element appended. */
  lemma PrefixSnoc<T>(s: seq<T>, i: nat)
    requires i < |s|
    ensures s[..i + 1] == s[..i] + [s[i]]
  {
  }

  /** The tail of a suffix is the next suffix. */
  lemma SuffixTail<T>(s: seq<T>, i: nat)
    requires i < |s|
    ensures s[i..][1..] == s[i + 1..] && s[i..][0] == s[i]
  {
  }

  /** A non-empty sequence is its head followed by its tail. */
  lemma ConsTail<T>(s: seq<T>)
    requires s != []
    ensures [s[0]] + s[1..] == s
  {
  }

  /** Two singletons appended make the pair. */
  lemma PairOf<T>(a: T, b: T)
    ensures [a] + [b] == [a, b]
  {
  }

  /** Appending is associative. */
  lemma ConcatAssoc<T>(x: seq<T>, y: seq<T>, z: seq<T>)
    ensures x + (y + z) == (x + y) + z
  {
  }

  lemma PrefixAll<T>(s: seq<T>)
    ensures s[..|s|] == s
  {
  }

  function Min(a: nat, b: nat): (r: nat)
    ensures r <= a && r <= b && (r == a || r == b)
  {
    if a <= b then a else b
  }
}
