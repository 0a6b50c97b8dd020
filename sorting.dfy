/**
 * The collection operations that the application takes from JavaScript and MongoDB:
 * a stable sort by a comparison (Array.prototype.sort, the sort cursor of a query),
 * filtering, mapping, and the default string order of Array.prototype.sort.
 */
module Sorting {

  /** `leq` is total and transitive, as a sort comparator must be. */
  ghost predicate TotalPreorder<T(!new)>(leq: (T, T) -> bool) {
    && (forall a, b :: leq(a, b) || leq(b, a))
    && (forall a, b, c :: leq(a, b) && leq(b, c) ==> leq(a, c))
  }

  predicate SortedBy<T>(s: seq<T>, leq: (T, T) -> bool) {
    forall i, j :: 0 <= i < j < |s| ==> leq(s[i], s[j])
  }

  predicate Distinct<T(==)>(s: seq<T>) {
    forall i, j :: 0 <= i < j < |s| ==> s[i] != s[j]
  }

  /** Puts x after every element of the sorted s that is not above it, so equal elements keep their order. */
  function InsertBy<T(!new)>(x: T, s: seq<T>, leq: (T, T) -> bool): (r: seq<T>)
    requires TotalPreorder(leq) && SortedBy(s, leq)
    ensures SortedBy(r, leq)
    ensures multiset(r) == multiset(s) + multiset{x}
    ensures |r| == |s| + 1
  {
    if s == [] then [x]
    else if leq(s[0], x) then
      var rest := InsertBy(x, s[1..], leq);
      HeadBelowInserted(s, x, rest, leq);
      assert s == [s[0]] + s[1..];
      [s[0]] + rest
    else
      PrependBelow(x, s, leq);
      [x] + s
  }

  /** An element that is not above the head of a sorted sequence can go in front of it. */
  lemma PrependBelow<T(!new)>(x: T, s: seq<T>, leq: (T, T) -> bool)
    requires TotalPreorder(leq) && SortedBy(s, leq)
    requires |s| > 0 && !leq(s[0], x)
    ensures SortedBy([x] + s, leq)
  {
    forall k | 0 <= k < |s|
      ensures leq(x, s[k])
    {
      assert leq(x, s[0]) && leq(s[0], s[k]);
    }
  }

  /** The head of a sorted s stays below everything its tail and an element above it make up. */
  lemma HeadBelowInserted<T>(s: seq<T>, x: T, rest: seq<T>, leq: (T, T) -> bool)
    requires |s| > 0 && SortedBy(s, leq) && leq(s[0], x) && SortedBy(rest, leq)
    requires multiset(rest) == multiset(s[1..]) + multiset{x}
    ensures SortedBy([s[0]] + rest, leq)
  {
    forall k | 0 <= k < |rest|
      ensures leq(s[0], rest[k])
    {
      assert rest[k] in multiset(rest);
      if rest[k] != x {
        assert rest[k] in s[1..];
      }
    }
  }

  /** Insertion sort: the model of a stable sort with comparator `leq`. */
  function SortBy<T(!new)>(s: seq<T>, leq: (T, T) -> bool): (r: seq<T>)
    requires TotalPreorder(leq)
    ensures SortedBy(r, leq)
    ensures multiset(r) == multiset(s)
    ensures |r| == |s|
  {
    if s == [] then []
    else
      assert s == s[..|s| - 1] + [s[|s| - 1]];
      InsertBy(s[|s| - 1], SortBy(s[..|s| - 1], leq), leq)
  }

  /** Array.prototype.filter: the elements satisfying p, in their original order. */
  function Filter<T>(s: seq<T>, p: T -> bool): (r: seq<T>)
    ensures |r| <= |s|
  {
    if s == [] then [] else Filter(s[..|s| - 1], p) + (if p(s[|s| - 1]) then [s[|s| - 1]] else [])
  }

  /** The filter keeps every occurrence of an element satisfying p and none of the others. */
  lemma {:induction false} FilterCounts<T(!new)>(s: seq<T>, p: T -> bool)
    ensures forall x :: multiset(Filter(s, p))[x] == if p(x) then multiset(s)[x] else 0
  {
    if s != [] {
      assert s == s[..|s| - 1] + [s[|s| - 1]];
      FilterCounts(s[..|s| - 1], p);
    }
  }

  /** The filter keeps exactly the elements satisfying p. */
  lemma FilterMembers<T(!new)>(s: seq<T>, p: T -> bool)
    ensures forall x :: x in Filter(s, p) <==> x in s && p(x)
  {
    FilterCounts(s, p);
    forall x ensures x in Filter(s, p) <==> x in s && p(x) {
      assert x in Filter(s, p) <==> x in multiset(Filter(s, p));
      assert x in s <==> x in multiset(s);
    }
  }

  lemma FilterSnoc<T>(s: seq<T>, x: T, p: T -> bool)
    ensures p(x) ==> Filter(s + [x], p) == Filter(s, p) + [x]
    ensures !p(x) ==> Filter(s + [x], p) == Filter(s, p)
  {
    assert (s + [x])[..|s + [x]| - 1] == s;
  }

  /** Array.prototype.map. */
  function MapSeq<A, B>(s: seq<A>, f: A -> B): (r: seq<B>)
    ensures |r| == |s|
    ensures forall i :: 0 <= i < |s| ==> r[i] == f(s[i])
  {
    if s == [] then [] else MapSeq(s[..|s| - 1], f) + [f(s[|s| - 1])]
  }

  lemma {:induction false} MapSeqConcat<A, B>(s: seq<A>, t: seq<A>, f: A -> B)
    ensures MapSeq(s + t, f) == MapSeq(s, f) + MapSeq(t, f)
  {
    assert |MapSeq(s + t, f)| == |MapSeq(s, f) + MapSeq(t, f)|;
    forall i | 0 <= i < |s + t|
      ensures MapSeq(s + t, f)[i] == (MapSeq(s, f) + MapSeq(t, f))[i]
    {
      if i < |s| {
        assert (s + t)[i] == s[i];
      } else {
        assert (s + t)[i] == t[i - |s|];
      }
    }
  }

  /** Mapping a permutation gives a permutation of the mapped sequence. */
  lemma {:induction false} MapSeqPermutation<A, B>(s: seq<A>, t: seq<A>, f: A -> B)
    requires multiset(s) == multiset(t)
    ensures multiset(MapSeq(s, f)) == multiset(MapSeq(t, f))
    decreases |s|
  {
    if s == [] {
      assert |t| == |multiset(t)| == 0;
    } else {
      var x := s[0];
      assert x in multiset(t);
      var k :| 0 <= k < |t| && t[k] == x;
      var t' := t[..k] + t[k + 1..];
      assert t == t[..k] + [x] + t[k + 1..];
      assert s == [x] + s[1..];
      calc {
        multiset(t');
        multiset(t[..k]) + multiset(t[k + 1..]);
        multiset(t) - multiset{x};
        multiset(s) - multiset{x};
        multiset(s[1..]);
      }
      MapSeqPermutation(s[1..], t', f);
      MapSeqConcat([x], s[1..], f);
      MapSeqConcat(t[..k] + [x], t[k + 1..], f);
      MapSeqConcat(t[..k], [x], f);
      MapSeqConcat(t[..k], t[k + 1..], f);
    }
  }

  /** A permutation of a sequence without repetitions has none either. */
  lemma DistinctPermutation<T>(s: seq<T>, t: seq<T>)
    requires Distinct(s) && multiset(s) == multiset(t)
    ensures Distinct(t)
  {
    forall x | x in multiset(s) ensures multiset(s)[x] == 1 {
      CountInDistinct(s, x);
    }
    forall i, j | 0 <= i < j < |t| ensures t[i] != t[j] {
      RepeatedCountsTwice(t, i, j);
    }
  }

  lemma RepeatedCountsTwice<T>(t: seq<T>, i: nat, j: nat)
    requires i < j < |t|
    ensures t[i] == t[j] ==> multiset(t)[t[i]] >= 2
  {
    assert t == t[..i] + [t[i]] + t[i + 1..j] + [t[j]] + t[j + 1..];
  }

  lemma {:induction false} CountInDistinct<T>(s: seq<T>, x: T)
    requires Distinct(s) && x in s
    ensures multiset(s)[x] == 1
  {
    if s[|s| - 1] == x {
      assert s == s[..|s| - 1] + [x];
      assert x !in s[..|s| - 1];
    } else {
      assert s == s[..|s| - 1] + [s[|s| - 1]];
      CountInDistinct(s[..|s| - 1], x);
    }
  }

  /**
   * The default order of Array.prototype.sort on strings: lexicographic by character,
   * a proper prefix first.
   */
  predicate LexLeq(a: string, b: string) {
    if a == [] then true
    else if b == [] then false
    else if a[0] != b[0] then a[0] < b[0]
    else LexLeq(a[1..], b[1..])
  }

  lemma {:induction false} LexLeqTotal(a: string, b: string)
    ensures LexLeq(a, b) || LexLeq(b, a)
  {
    if a != [] && b != [] && a[0] == b[0] {
      LexLeqTotal(a[1..], b[1..]);
    }
  }

  lemma {:induction false} LexLeqTransitive(a: string, b: string, c: string)
    requires LexLeq(a, b) && LexLeq(b, c)
    ensures LexLeq(a, c)
  {
    if a != [] && b != [] && c != [] && a[0] == b[0] && b[0] == c[0] {
      LexLeqTransitive(a[1..], b[1..], c[1..]);
    }
  }

  lemma {:induction false} LexLeqAntisymmetric(a: string, b: string)
    requires LexLeq(a, b) && LexLeq(b, a)
    ensures a == b
  {
    if a != [] && b != [] {
      LexLeqAntisymmetric(a[1..], b[1..]);
      assert a == [a[0]] + a[1..];
      assert b == [b[0]] + b[1..];
    }
  }

  lemma LexLeqIsTotalPreorder()
    ensures TotalPreorder(LexLeq)
  {
    forall a, b ensures LexLeq(a, b) || LexLeq(b, a) {
      LexLeqTotal(a, b);
    }
    forall a, b, c | LexLeq(a, b) && LexLeq(b, c) ensures LexLeq(a, c) {
      LexLeqTransitive(a, b, c);
    }
  }

  /** Distinct strings sorted by LexLeq are strictly increasing. */
  lemma SortedDistinctStrictly(s: seq<string>)
    requires SortedBy(s, LexLeq) && Distinct(s)
    ensures forall i, j :: 0 <= i < j < |s| ==> LexLeq(s[i], s[j]) && !LexLeq(s[j], s[i])
  {
    forall i, j | 0 <= i < j < |s| ensures !LexLeq(s[j], s[i]) {
      if LexLeq(s[j], s[i]) {
        LexLeqAntisymmetric(s[i], s[j]);
      }
    }
  }
}
