/** The optional value that lookups return (the `undefined` of `Array.prototype.find`),
    and the outcome of a form submission that can be refused. */
module Wrappers {
  datatype Result<+T, +E> = Success(value: T) | Failure(error: E)

  datatype Option<+T> = None | Some(value: T) {
    function GetOr(default: T): T {
      match this
      case Some(v) => v
      case None => default
    }
  }
}

/** The list operations the storefront builds on: `filter`, `find`, subsequences and
    de-duplication in first-occurrence order (a JavaScript `Set` built from a list). */
module Seqs {
  import opened Wrappers

  /** `a` can be obtained from `b` by deleting elements, keeping the order of the rest. */
  predicate IsSubseq<T(==)>(a: seq<T>, b: seq<T>) {
    if a == [] then true
    else if b == [] then false
    else (a[0] == b[0] && IsSubseq(a[1..], b[1..])) || IsSubseq(a, b[1..])
  }

  /** No element occurs twice. */
  predicate NoDups<T(==)>(s: seq<T>) {
    forall i, j :: 0 <= i < j < |s| ==> s[i] != s[j]
  }

  /** `Array.prototype.filter`: the elements satisfying `f`, in their original order. */
  function Filter<T>(s: seq<T>, f: T -> bool): (r: seq<T>)
    ensures |r| <= |s|
    ensures forall x :: x in r ==> x in s && f(x)
    ensures forall x :: x in s && f(x) ==> x in r
  {
    if s == [] then [] else (if f(s[0]) then [s[0]] else []) + Filter(s[1..], f)
  }

  /** `Array.prototype.find`: the first element satisfying `f`, if any. */
  function FindFirst<T>(s: seq<T>, f: T -> bool): (r: Option<T>)
    ensures r.None? <==> forall x :: x in s ==> !f(x)
    ensures r.Some? ==> exists i :: 0 <= i < |s| && s[i] == r.value && f(s[i]) &&
                                    forall j :: 0 <= j < i ==> !f(s[j])
  {
    if s == [] then None
    else if f(s[0]) then Some(s[0])
    else
      var r := FindFirst(s[1..], f);
      if r.Some? then
        assert forall j :: 1 <= j < |s| ==> s[j] == s[1..][j - 1];
        r
      else r
  }

  /** Every element `f` rejects is gone from the filtered list: what remains is exactly
      the elements satisfying `f`, each as often as in `s`, in the order of `s`. */
  lemma {:induction false} FilterExactly<T>(s: seq<T>, f: T -> bool)
    ensures IsSubseq(Filter(s, f), s)
    ensures forall x :: multiset(Filter(s, f))[x] == if f(x) then multiset(s)[x] else 0
  {
    if s != [] {
      FilterExactly(s[1..], f);
      assert s == [s[0]] + s[1..];
      if f(s[0]) {
        assert Filter(s, f)[1..] == Filter(s[1..], f);
      } else {
        assert Filter(s, f) == Filter(s[1..], f);
        SubseqOfTail(Filter(s[1..], f), s);
      }
    }
  }

  /** A subsequence of the tail is a subsequence of the whole list. */
  lemma {:induction false} SubseqOfTail<T>(a: seq<T>, b: seq<T>)
    requires b != [] && IsSubseq(a, b[1..])
    ensures IsSubseq(a, b)
  {
  }

  /** Filtering with a predicate that holds everywhere changes nothing. */
  lemma {:induction false} FilterKeepsAll<T>(s: seq<T>, f: T -> bool)
    requires forall x :: x in s ==> f(x)
    ensures Filter(s, f) == s
  {
    if s != [] {
      FilterKeepsAll(s[1..], f);
    }
  }

  /** Filters whose predicates agree on the elements of `s` give the same list. */
  lemma {:induction false} FilterAgrees<T>(s: seq<T>, f: T -> bool, g: T -> bool)
    requires forall x :: x in s ==> f(x) == g(x)
    ensures Filter(s, f) == Filter(s, g)
  {
    if s != [] {
      FilterAgrees(s[1..], f, g);
    }
  }

  /** Two filters in a row are one filter by the conjunction of their predicates. */
  lemma {:induction false} FilterFuse<T>(s: seq<T>, f: T -> bool, g: T -> bool, h: T -> bool)
    requires forall x :: h(x) == (f(x) && g(x))
    ensures Filter(Filter(s, f), g) == Filter(s, h)
  {
    if s != [] {
      FilterFuse(s[1..], f, g, h);
      var t := Filter(s, f);
      if f(s[0]) {
        assert t[0] == s[0] && t[1..] == Filter(s[1..], f);
      } else {
        assert t == Filter(s[1..], f);
      }
    }
  }

  /** A predicate and its negation split a list: the two filtered lists together are as
      long as the list. */
  lemma {:induction false} FilterPartition<T>(s: seq<T>, f: T -> bool, g: T -> bool)
    requires forall x :: g(x) == !f(x)
    ensures |Filter(s, f)| + |Filter(s, g)| == |s|
  {
    if s != [] {
      FilterPartition(s[1..], f, g);
    }
  }

  /** Filtering distributes over concatenation. */
  lemma {:induction false} FilterAppend<T>(a: seq<T>, b: seq<T>, f: T -> bool)
    ensures Filter(a + b, f) == Filter(a, f) + Filter(b, f)
  {
    if a == [] {
      assert a + b == b;
    } else {
      assert (a + b)[1..] == a[1..] + b;
      FilterAppend(a[1..], b, f);
    }
  }

  /** No two elements share a key. */
  predicate DistinctBy<T, K(==)>(s: seq<T>, key: T -> K) {
    forall i, j :: 0 <= i < j < |s| ==> key(s[i]) != key(s[j])
  }

  lemma {:induction false} IsSubseqRefl<T>(s: seq<T>)
    ensures IsSubseq(s, s)
  {
    if s != [] {
      IsSubseqRefl(s[1..]);
    }
  }

  /** The elements of a subsequence are elements of the list. */
  lemma {:induction false} SubseqMembers<T>(a: seq<T>, b: seq<T>)
    requires IsSubseq(a, b)
    ensures forall x :: x in a ==> x in b
  {
    if a != [] && b != [] {
      assert forall x :: x in b[1..] ==> x in b;
      if a[0] == b[0] && IsSubseq(a[1..], b[1..]) {
        SubseqMembers(a[1..], b[1..]);
        assert a == [a[0]] + a[1..];
      } else {
        SubseqMembers(a, b[1..]);
      }
    }
  }

  /** A subsequence of a list with distinct keys has distinct keys. */
  lemma {:induction false} SubseqKeepsDistinct<T, K>(a: seq<T>, b: seq<T>, key: T -> K)
    requires IsSubseq(a, b) && DistinctBy(b, key)
    ensures DistinctBy(a, key)
  {
    if a != [] && b != [] {
      assert DistinctBy(b[1..], key) by {
        forall i, j | 0 <= i < j < |b[1..]| ensures key(b[1..][i]) != key(b[1..][j]) {
          assert b[1..][i] == b[i + 1] && b[1..][j] == b[j + 1];
        }
      }
      if a[0] == b[0] && IsSubseq(a[1..], b[1..]) {
        SubseqKeepsDistinct(a[1..], b[1..], key);
        SubseqMembers(a[1..], b[1..]);
        forall j | 0 < j < |a| ensures key(a[0]) != key(a[j]) {
          assert a[1..][j - 1] == a[j];
          assert a[j] in a[1..];
          assert a[j] in b[1..];
          var k :| 0 <= k < |b[1..]| && b[1..][k] == a[j];
          assert b[k + 1] == a[j];
        }
        forall i, j | 0 < i < j < |a| ensures key(a[i]) != key(a[j]) {
          assert a[1..][i - 1] == a[i] && a[1..][j - 1] == a[j];
        }
      } else {
        SubseqKeepsDistinct(a, b[1..], key);
      }
    }
  }

  /** The list without its repeated elements, each kept at its first occurrence (the
      iteration order of a JavaScript `Set` built from `s`). */
  function Dedup<T(==)>(s: seq<T>): (r: seq<T>)
    ensures forall x :: x in r ==> x in s
    ensures forall x :: x in s ==> x in r
    ensures NoDups(r)
  {
    if s == [] then []
    else
      var d := Dedup(s[..|s| - 1]);
      assert s == s[..|s| - 1] + [s[|s| - 1]];
      if s[|s| - 1] in d then d else d + [s[|s| - 1]]
  }

  /** The position of the first occurrence of `x` in `s`. */
  function FirstIndex<T(==)>(s: seq<T>, x: T): (k: nat)
    requires x in s
    ensures k < |s| && s[k] == x && x !in s[..k]
  {
    if s[0] == x then 0
    else
      var k := FirstIndex(s[1..], x);
      assert s[..k + 1] == [s[0]] + s[1..][..k];
      k + 1
  }

  /** In a prefix that already contains `x`, the first occurrence is the same. */
  lemma FirstIndexInPrefix<T>(s: seq<T>, n: nat, x: T)
    requires n <= |s| && x in s[..n]
    ensures FirstIndex(s, x) == FirstIndex(s[..n], x)
  {
    var k := FirstIndex(s[..n], x);
    assert s[..n][..k] == s[..k];
  }

  /** `Dedup` lists the distinct elements in the order of their first occurrences. */
  lemma {:induction false} DedupFirstOccurrenceOrder<T>(s: seq<T>)
    ensures forall i, j :: 0 <= i < j < |Dedup(s)| ==>
              FirstIndex(s, Dedup(s)[i]) < FirstIndex(s, Dedup(s)[j])
  {
    if s != [] {
      var n := |s| - 1;
      var p := s[..n];
      var d := Dedup(p);
      DedupFirstOccurrenceOrder(p);
      forall x | x in d
        ensures FirstIndex(s, x) == FirstIndex(p, x) < n
      {
        FirstIndexInPrefix(s, n, x);
      }
      if s[n] !in d {
        assert s[n] !in p;
        assert s[..n] == p;
        assert FirstIndex(s, s[n]) == n;
      }
    }
  }
}
