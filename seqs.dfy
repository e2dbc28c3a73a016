/**
 * Generic sequence operations that this task tracker is built from: the
 * counterparts of JavaScript's `Array.prototype.filter` and
 * `Array.prototype.map`, which every handler and derived view of the
 * application uses to compute a new list from the previous one.
 */
module Seqs {

  /** `a` can be obtained from `b` by deleting elements (order kept). */
  predicate IsSubsequence<T(==)>(a: seq<T>, b: seq<T>)
    decreases b
  {
    if b == [] then a == []
    else (a != [] && a[0] == b[0] && IsSubsequence(a[1..], b[1..])) || IsSubsequence(a, b[1..])
  }

  /** The elements of `s` that satisfy `p`, in their original order. */
  function Filter<T(!new)>(s: seq<T>, p: T -> bool): (r: seq<T>)
    ensures |r| <= |s|
    ensures forall x :: x in r <==> x in s && p(x)
  {
    if s == [] then []
    else
      var rest := Filter(s[1..], p);
      assert s == [s[0]] + s[1..];
      if p(s[0]) then [s[0]] + rest else rest
  }

  /** Each element that passes is kept as often as it occurs; the others are dropped. */
  lemma {:induction false} FilterMultiplicity<T(!new)>(s: seq<T>, p: T -> bool, x: T)
    ensures multiset(Filter(s, p))[x] == if p(x) then multiset(s)[x] else 0
  {
    if s != [] {
      FilterMultiplicity(s[1..], p, x);
      assert s == [s[0]] + s[1..];
    }
  }

  /** Applies `f` to every element, keeping length and positions. */
  function Map<T, U>(s: seq<T>, f: T -> U): (r: seq<U>)
    ensures |r| == |s|
    ensures forall i :: 0 <= i < |s| ==> r[i] == f(s[i])
  {
    if s == [] then [] else [f(s[0])] + Map(s[1..], f)
  }

  lemma {:induction false} FilterIsSubsequence<T(!new)>(s: seq<T>, p: T -> bool)
    ensures IsSubsequence(Filter(s, p), s)
  {
    if s != [] {
      FilterIsSubsequence(s[1..], p);
    }
  }

  /** Keeping everything changes nothing. */
  lemma {:induction false} FilterAll<T(!new)>(s: seq<T>, p: T -> bool)
    requires forall i :: 0 <= i < |s| ==> p(s[i])
    ensures Filter(s, p) == s
  {
    if s != [] {
      FilterAll(s[1..], p);
      assert s == [s[0]] + s[1..];
    }
  }

  /** Keeping nothing gives the empty sequence. */
  lemma FilterNone<T(!new)>(s: seq<T>, p: T -> bool)
    requires forall i :: 0 <= i < |s| ==> !p(s[i])
    ensures Filter(s, p) == []
  {
  }

  lemma {:induction false} FilterConcat<T(!new)>(a: seq<T>, b: seq<T>, p: T -> bool)
    ensures Filter(a + b, p) == Filter(a, p) + Filter(b, p)
  {
    if a == [] {
      assert a + b == b;
    } else {
      assert (a + b)[1..] == a[1..] + b;
      FilterConcat(a[1..], b, p);
    }
  }

  /** Filtering out the one element that fails `p` removes exactly that element. */
  lemma FilterDropOne<T(!new)>(a: seq<T>, x: T, b: seq<T>, p: T -> bool)
    requires forall i :: 0 <= i < |a| ==> p(a[i])
    requires forall i :: 0 <= i < |b| ==> p(b[i])
    requires !p(x)
    ensures Filter(a + [x] + b, p) == a + b
  {
    FilterConcat(a + [x], b, p);
    FilterConcat(a, [x], p);
    FilterAll(a, p);
    FilterAll(b, p);
    assert Filter([x], p) == [];
    assert Filter(a + [x], p) == a;
  }

  /** A sequence is what comes before position `k`, the element there, and what comes after. */
  lemma SplitAt<T>(s: seq<T>, k: nat)
    requires k < |s|
    ensures s == s[..k] + [s[k]] + s[k + 1..]
  {
  }

  /** Putting `a` in front of `x + y + z` when it belongs to the first, second or third part. */
  lemma ConsRegroup<T>(a: T, x: seq<T>, y: seq<T>, z: seq<T>)
    ensures [a] + (x + y + z) == ([a] + x) + y + z
    ensures x == [] ==> [a] + (x + y + z) == x + ([a] + y) + z
    ensures x == [] && y == [] ==> [a] + (x + y + z) == x + y + ([a] + z)
  {
  }

  /** Removing one element from the middle lowers the count of `p` by one iff it satisfies `p`. */
  lemma FilterCountDropOne<T(!new)>(a: seq<T>, x: T, b: seq<T>, p: T -> bool)
    ensures |Filter(a + [x] + b, p)| == |Filter(a + b, p)| + (if p(x) then 1 else 0)
  {
    FilterConcat(a + [x], b, p);
    FilterConcat(a, [x], p);
    FilterConcat(a, b, p);
    assert |Filter([x], p)| == if p(x) then 1 else 0;
  }

  /** Filtering by `p` and by its negation splits the sequence. */
  lemma {:induction false} FilterComplement<T(!new)>(s: seq<T>, p: T -> bool, q: T -> bool)
    requires forall x :: q(x) <==> !p(x)
    ensures |Filter(s, p)| + |Filter(s, q)| == |s|
  {
    if s != [] {
      FilterComplement(s[1..], p, q);
    }
  }

  /** A weaker predicate keeps at least as many elements. */
  lemma {:induction false} FilterMonotone<T(!new)>(s: seq<T>, p: T -> bool, q: T -> bool)
    requires forall x :: p(x) ==> q(x)
    ensures |Filter(s, p)| <= |Filter(s, q)|
  {
    if s != [] {
      FilterMonotone(s[1..], p, q);
    }
  }

  /** Sequences that agree on `p` position by position keep equally many elements. */
  lemma {:induction false} FilterSameCount<T(!new)>(s: seq<T>, s': seq<T>, p: T -> bool)
    requires |s| == |s'|
    requires forall i :: 0 <= i < |s| ==> p(s[i]) == p(s'[i])
    ensures |Filter(s, p)| == |Filter(s', p)|
  {
    if s != [] {
      FilterSameCount(s[1..], s'[1..], p);
    }
  }

  /**
   * Replacing the one element at position `k` by `f(s[k])`, when `f` leaves
   * every other element as it is, changes the number of elements satisfying
   * `p` only by what happens at `k`.
   */
  lemma {:induction false} MapOneCount<T(!new)>(s: seq<T>, f: T -> T, k: nat, p: T -> bool)
    requires k < |s|
    requires forall i :: 0 <= i < |s| && i != k ==> f(s[i]) == s[i]
    ensures |Filter(Map(s, f), p)| + (if p(s[k]) then 1 else 0)
         == |Filter(s, p)| + (if p(f(s[k])) then 1 else 0)
  {
    var m := Map(s, f);
    assert m[1..] == Map(s[1..], f);
    if k == 0 {
      assert m[1..] == s[1..];
    } else {
      MapOneCount(s[1..], f, k - 1, p);
    }
  }
}
