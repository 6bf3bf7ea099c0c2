/**
 * Generic sequence operations the application relies on through JavaScript's
 * built-ins: `Set` insertion order, `Array.prototype.filter`, `reverse` and
 * `sort` with a comparator.
 */
module Seqs {

  /** No element occurs twice. */
  predicate Distinct<T(==)>(s: seq<T>)
  {
    forall i, j :: 0 <= i < j < |s| ==> s[i] != s[j]
  }

  /**
   * The distinct elements of `s` in order of first occurrence: what
   * `Array.from(new Set(s))` yields, and the order in which a fresh object
   * records the string keys assigned to it.
   */
  function Dedup<T(==,!new)>(s: seq<T>): (r: seq<T>)
    ensures Distinct(r)
    ensures forall x :: x in r <==> x in s
    ensures |r| <= |s|
  {
    if s == [] then []
    else
      var d := Dedup(s[..|s| - 1]);
      if s[|s| - 1] in d then d else d + [s[|s| - 1]]
  }

  /** `set.add(x)` on a `Set` listed in insertion order: `x` is appended unless it is already there. */
  method SetAdd<T(==)>(s: seq<T>, x: T) returns (r: seq<T>)
    ensures x in s ==> r == s
    ensures x !in s ==> r == s + [x]
  {
    r := s;
    if x !in s {
      r := s + [x];
    }
  }

  /** `r` is `s` with some elements left out and the rest kept in order. */
  predicate IsSubsequence<T(==)>(r: seq<T>, s: seq<T>)
  {
    if r == [] then true
    else if s == [] then false
    else if r[0] == s[0] then IsSubsequence(r[1..], s[1..])
    else IsSubsequence(r, s[1..])
  }

  lemma {:induction false} SubsequenceMembers<T>(r: seq<T>, s: seq<T>)
    requires IsSubsequence(r, s)
    ensures forall x :: x in r ==> x in s
    ensures |r| <= |s|
  {
    if r != [] && s != [] {
      if r[0] == s[0] {
        SubsequenceMembers(r[1..], s[1..]);
        assert r == [r[0]] + r[1..];
      } else {
        SubsequenceMembers(r, s[1..]);
      }
    }
  }

  lemma {:induction false} PrefixIsSubsequence<T>(s: seq<T>, n: nat)
    requires n <= |s|
    ensures IsSubsequence(s[..n], s)
  {
    if n > 0 {
      assert s[..n][1..] == s[1..][..n - 1];
      PrefixIsSubsequence(s[1..], n - 1);
    }
  }

  lemma {:induction false} SubsequenceTrans<T>(a: seq<T>, b: seq<T>, c: seq<T>)
    requires IsSubsequence(a, b) && IsSubsequence(b, c)
    ensures IsSubsequence(a, c)
    decreases |c|
  {
    if a != [] {
      assert b != [] && c != [];
      if b[0] == c[0] {
        if a[0] == b[0] {
          SubsequenceTrans(a[1..], b[1..], c[1..]);
        } else {
          SubsequenceTrans(a, b[1..], c[1..]);
          SubsequenceSkip(a, c);
        }
      } else {
        SubsequenceTrans(a, b, c[1..]);
        SubsequenceSkip(a, c);
      }
    }
  }

  /** Adding an element to a sequence adds it to the deduplicated sequence when it is new. */
  lemma DedupSnoc<T(!new)>(s: seq<T>, x: T)
    ensures Dedup(s + [x]) == if x in Dedup(s) then Dedup(s) else Dedup(s) + [x]
  {
    assert (s + [x])[..|s|] == s;
  }

  /** `Array.prototype.filter`: the elements satisfying `p`, in order. */
  function Filter<T(!new)>(s: seq<T>, p: T -> bool): (r: seq<T>)
    ensures |r| <= |s|
    ensures forall x :: x in r <==> x in s && p(x)
  {
    if s == [] then []
    else (if p(s[0]) then [s[0]] else []) + Filter(s[1..], p)
  }

  lemma {:induction false} FilterIsSubsequence<T(!new)>(s: seq<T>, p: T -> bool)
    ensures IsSubsequence(Filter(s, p), s)
  {
    if s != [] {
      FilterIsSubsequence(s[1..], p);
      if p(s[0]) {
        assert Filter(s, p)[1..] == Filter(s[1..], p);
      } else {
        assert Filter(s, p) == Filter(s[1..], p);
        SubsequenceSkip(Filter(s[1..], p), s);
      }
    }
  }

  /** Dropping the head of the bigger sequence keeps a subsequence a subsequence. */
  lemma {:induction false} SubsequenceSkip<T>(r: seq<T>, s: seq<T>)
    requires s != [] && IsSubsequence(r, s[1..])
    ensures IsSubsequence(r, s)
    decreases |s|, 0
  {
    if r != [] && r[0] == s[0] {
      SubsequenceDropHead(r, s[1..]);
    }
  }

  /** Dropping the head of the smaller sequence keeps a subsequence a subsequence. */
  lemma {:induction false} SubsequenceDropHead<T>(r: seq<T>, t: seq<T>)
    requires r != [] && IsSubsequence(r, t)
    ensures IsSubsequence(r[1..], t)
    decreases |t|, 1
  {
    if r[0] == t[0] {
      SubsequenceSkip(r[1..], t);
    } else {
      SubsequenceDropHead(r, t[1..]);
      SubsequenceSkip(r[1..], t);
    }
  }

  lemma {:induction false} FilterAll<T(!new)>(s: seq<T>, p: T -> bool)
    requires forall x :: x in s ==> p(x)
    ensures Filter(s, p) == s
  {
    if s != [] {
      FilterAll(s[1..], p);
    }
  }

  lemma {:induction false} FilterNone<T(!new)>(s: seq<T>, p: T -> bool)
    requires forall x :: x in s ==> !p(x)
    ensures Filter(s, p) == []
  {
    if s != [] {
      FilterNone(s[1..], p);
    }
  }

  /** A prefix one element longer holds one more copy of that element. */
  lemma PrefixMultisetStep<T>(s: seq<T>, i: nat)
    requires i < |s|
    ensures multiset(s[..i + 1]) == multiset(s[..i]) + multiset{s[i]}
  {
    assert s[..i + 1] == s[..i] + [s[i]];
  }

  /** Filtering an extended sequence extends the filtered one. */
  lemma {:induction false} FilterSnoc<T(!new)>(s: seq<T>, x: T, p: T -> bool)
    ensures Filter(s + [x], p) == Filter(s, p) + (if p(x) then [x] else [])
  {
    if s == [] {
      assert [x][1..] == [];
    } else {
      var t := s + [x];
      assert t[0] == s[0] && t[1..] == s[1..] + [x];
      FilterSnoc(s[1..], x, p);
      assert Filter(t, p) == (if p(s[0]) then [s[0]] else []) + Filter(t[1..], p);
    }
  }

  /** The first element kept by `filter` is the first element of `s` satisfying `p`. */
  lemma {:induction false} FilterHead<T(!new)>(s: seq<T>, p: T -> bool)
    requires Filter(s, p) != []
    ensures exists f :: 0 <= f < |s| && Filter(s, p)[0] == s[f] && p(s[f]) && forall t :: 0 <= t < f ==> !p(s[t])
  {
    if !p(s[0]) {
      FilterHead(s[1..], p);
      var f :| 0 <= f < |s[1..]| && Filter(s[1..], p)[0] == s[1..][f] && p(s[1..][f])
                && forall t :: 0 <= t < f ==> !p(s[1..][t]);
      assert Filter(s, p)[0] == s[f + 1];
      forall t | 0 <= t < f + 1
        ensures !p(s[t])
      {
        if t > 0 {
          assert s[t] == s[1..][t - 1];
        }
      }
    }
  }

  /** The last element kept by `filter` is the last element of `s` satisfying `p`. */
  lemma {:induction false} FilterLast<T(!new)>(s: seq<T>, p: T -> bool)
    requires Filter(s, p) != []
    ensures exists l :: 0 <= l < |s| && Filter(s, p)[|Filter(s, p)| - 1] == s[l] && p(s[l])
                        && forall t :: l < t < |s| ==> !p(s[t])
  {
    var n := |s| - 1;
    var r := Filter(s, p);
    assert s == s[..n] + [s[n]];
    FilterSnoc(s[..n], s[n], p);
    if p(s[n]) {
      assert r[|r| - 1] == s[n];
    } else {
      FilterLast(s[..n], p);
      var l :| 0 <= l < n && Filter(s[..n], p)[|Filter(s[..n], p)| - 1] == s[..n][l] && p(s[..n][l])
                && forall t :: l < t < n ==> !p(s[..n][t]);
      assert r[|r| - 1] == s[l] && p(s[l]);
      forall t | l < t < |s|
        ensures !p(s[t])
      {
        if t < n {
          assert s[t] == s[..n][t];
        }
      }
    }
  }

  /** Filtering with a stronger predicate keeps a subsequence of what the weaker one keeps. */
  lemma {:induction false} FilterNarrower<T(!new)>(s: seq<T>, p: T -> bool, q: T -> bool)
    requires forall x :: p(x) ==> q(x)
    ensures IsSubsequence(Filter(s, p), Filter(s, q))
  {
    if s != [] {
      FilterNarrower(s[1..], p, q);
      if p(s[0]) {
        assert Filter(s, p)[1..] == Filter(s[1..], p);
        assert Filter(s, q)[1..] == Filter(s[1..], q);
      } else if q(s[0]) {
        assert Filter(s, p) == Filter(s[1..], p);
        assert Filter(s, q)[1..] == Filter(s[1..], q);
        SubsequenceSkip(Filter(s, p), Filter(s, q));
      } else {
        assert Filter(s, p) == Filter(s[1..], p);
        assert Filter(s, q) == Filter(s[1..], q);
      }
    }
  }

  /** `s.filter(p).length`. */
  function Count<T(!new)>(s: seq<T>, p: T -> bool): nat
  {
    |Filter(s, p)|
  }

  /** Two predicates that never hold together count at most `|s|` elements between them. */
  lemma {:induction false} CountDisjoint<T(!new)>(s: seq<T>, p: T -> bool, q: T -> bool)
    requires forall x :: !(p(x) && q(x))
    ensures Count(s, p) + Count(s, q) <= |s|
  {
    if s != [] {
      CountDisjoint(s[1..], p, q);
    }
  }

  /** A predicate and its complement split `s` between them. */
  lemma {:induction false} CountComplement<T(!new)>(s: seq<T>, p: T -> bool, q: T -> bool)
    requires forall x :: q(x) <==> !p(x)
    ensures Count(s, p) + Count(s, q) == |s|
  {
    if s != [] {
      CountComplement(s[1..], p, q);
    }
  }

  /** A predicate and its complement split `s` into two parts that together are a permutation of it. */
  lemma {:induction false} FilterPartition<T(!new)>(s: seq<T>, p: T -> bool, q: T -> bool)
    requires forall x :: q(x) <==> !p(x)
    ensures multiset(Filter(s, p)) + multiset(Filter(s, q)) == multiset(s)
  {
    if s != [] {
      var x, t := s[0], s[1..];
      FilterPartition(t, p, q);
      assert s == [x] + t;
      if p(x) {
        assert Filter(s, p) == [x] + Filter(t, p);
      } else {
        assert Filter(s, q) == [x] + Filter(t, q);
      }
    }
  }

  /** A weaker predicate counts at least as many elements. */
  lemma {:induction false} CountMonotone<T(!new)>(s: seq<T>, p: T -> bool, q: T -> bool)
    requires forall x :: p(x) ==> q(x)
    ensures Count(s, p) <= Count(s, q)
  {
    if s != [] {
      CountMonotone(s[1..], p, q);
    }
  }

  /** `Array.prototype.reverse`. */
  function Reverse<T>(s: seq<T>): (r: seq<T>)
    ensures |r| == |s|
    ensures forall i :: 0 <= i < |s| ==> r[i] == s[|s| - 1 - i]
  {
    if s == [] then [] else Reverse(s[1..]) + [s[0]]
  }

  // ---------------------------------------------------------------------
  // Sorting with a comparator, as `Array.prototype.sort` does

  /**
   * `lt` is a strict weak order: asymmetric, and "not less than" is
   * transitive. This is what a consistent `sort` comparator induces.
   */
  ghost predicate StrictWeakOrder<T(!new)>(lt: (T, T) -> bool)
  {
    && (forall a, b :: lt(a, b) ==> !lt(b, a))
    && (forall a, b, c :: !lt(a, b) && !lt(b, c) ==> !lt(a, c))
  }

  /** No element is less than one that precedes it. */
  predicate Sorted<T>(s: seq<T>, lt: (T, T) -> bool)
  {
    forall i, j :: 0 <= i < j < |s| ==> !lt(s[j], s[i])
  }

  function Insert<T>(x: T, s: seq<T>, lt: (T, T) -> bool): (r: seq<T>)
    ensures multiset(r) == multiset(s) + multiset{x}
    ensures |r| == |s| + 1
  {
    if s == [] then [x]
    else if lt(s[0], x) then
      assert s == [s[0]] + s[1..];
      [s[0]] + Insert(x, s[1..], lt)
    else [x] + s
  }

  /** Insertion sort: a permutation of `s` (and sorted, by `SortIsSorted`). */
  function Sort<T>(s: seq<T>, lt: (T, T) -> bool): (r: seq<T>)
    ensures multiset(r) == multiset(s)
    ensures |r| == |s|
  {
    if s == [] then []
    else
      assert s == [s[0]] + s[1..];
      Insert(s[0], Sort(s[1..], lt), lt)
  }

  lemma {:induction false} InsertSorted<T(!new)>(x: T, s: seq<T>, lt: (T, T) -> bool)
    requires StrictWeakOrder(lt) && Sorted(s, lt)
    ensures Sorted(Insert(x, s, lt), lt)
  {
    if s != [] {
      if lt(s[0], x) {
        var t := Insert(x, s[1..], lt);
        InsertSorted(x, s[1..], lt);
        forall y | y in t
          ensures !lt(y, s[0])
        {
          assert y in multiset(t);
          if y != x {
            assert y in multiset(s[1..]);
            var j :| 0 <= j < |s[1..]| && s[1..][j] == y;
            assert s[j + 1] == y;
          }
        }
        var r := [s[0]] + t;
        forall i, j | 0 <= i < j < |r|
          ensures !lt(r[j], r[i])
        {
          if i > 0 {
            assert r[i] == t[i - 1] && r[j] == t[j - 1];
          } else {
            assert r[j] == t[j - 1];
            assert r[j] in t;
          }
        }
      } else {
        var r := [x] + s;
        forall i, j | 0 <= i < j < |r|
          ensures !lt(r[j], r[i])
        {
          if i == 0 {
            assert r[j] == s[j - 1];
            if j - 1 > 0 {
              assert !lt(s[j - 1], s[0]);
            }
          } else {
            assert r[i] == s[i - 1] && r[j] == s[j - 1];
          }
        }
      }
    }
  }

  lemma {:induction false} SortIsSorted<T(!new)>(s: seq<T>, lt: (T, T) -> bool)
    requires StrictWeakOrder(lt)
    ensures Sorted(Sort(s, lt), lt)
  {
    if s != [] {
      SortIsSorted(s[1..], lt);
      InsertSorted(s[0], Sort(s[1..], lt), lt);
    }
  }

  /** Under a total order, a sorted sequence without duplicates is strictly ascending. */
  lemma SortedDistinctAscending<T(!new)>(s: seq<T>, lt: (T, T) -> bool)
    requires Sorted(s, lt) && Distinct(s)
    requires forall a, b :: a != b ==> lt(a, b) || lt(b, a)
    ensures forall i, j :: 0 <= i < j < |s| ==> lt(s[i], s[j])
  {
    forall i, j | 0 <= i < j < |s|
      ensures lt(s[i], s[j])
    {
      assert !lt(s[j], s[i]) && s[i] != s[j];
    }
  }

  // ---------------------------------------------------------------------
  // Distinctness and multisets

  lemma {:induction false} DistinctMultiplicity<T>(s: seq<T>, x: T)
    requires Distinct(s)
    ensures multiset(s)[x] <= 1
  {
    if s != [] {
      assert s == [s[0]] + s[1..];
      DistinctMultiplicity(s[1..], x);
      if x == s[0] {
        assert x !in s[1..];
      }
    }
  }

  /** A permutation of a sequence without duplicates has none either. */
  lemma DistinctPermutation<T>(s: seq<T>, r: seq<T>)
    requires Distinct(s) && multiset(s) == multiset(r)
    ensures Distinct(r)
  {
    forall i, j | 0 <= i < j < |r|
      ensures r[i] != r[j]
    {
      if r[i] == r[j] {
        var x := r[i];
        assert r == r[..j] + r[j..];
        assert x in r[..j];
        assert x in r[j..];
        assert multiset(r)[x] == multiset(r[..j])[x] + multiset(r[j..])[x];
        DistinctMultiplicity(s, x);
        assert false;
      }
    }
  }

  /**
   * Deduplicating and then sorting under a total order gives the distinct
   * elements of `s`, strictly ascending.
   */
  lemma SortDedupAscending<T(!new)>(s: seq<T>, lt: (T, T) -> bool)
    requires StrictWeakOrder(lt)
    requires forall a, b :: a != b ==> lt(a, b) || lt(b, a)
    ensures var r := Sort(Dedup(s), lt);
            && (forall i, j :: 0 <= i < j < |r| ==> lt(r[i], r[j]))
            && (forall x :: x in r <==> x in s)
  {
    var d := Dedup(s);
    var r := Sort(d, lt);
    SortIsSorted(d, lt);
    DistinctPermutation(d, r);
    SortedDistinctAscending(r, lt);
    forall x
      ensures x in r <==> x in s
    {
      assert x in r <==> x in multiset(r);
      assert x in d <==> x in multiset(d);
    }
  }
}
