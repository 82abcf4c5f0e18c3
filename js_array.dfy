/** The Array.prototype operations the storefront relies on (filter, slice,
    sort), modelled on immutable sequences, with the facts about them that
    the rest of the model uses. */
module JsArray {

  /** `a` occurs in `b` in the same relative order: an order-preserving
      subsequence. */
  predicate IsSubsequence<T(==)>(a: seq<T>, b: seq<T>)
    decreases |b|
  {
    if |a| == 0 then true
    else if |b| == 0 then false
    else (a[0] == b[0] && IsSubsequence(a[1..], b[1..])) || IsSubsequence(a, b[1..])
  }

  lemma {:induction false} SubsequenceTransitive<T>(a: seq<T>, b: seq<T>, c: seq<T>)
    requires IsSubsequence(a, b) && IsSubsequence(b, c)
    ensures IsSubsequence(a, c)
    decreases |a| + |b| + |c|
  {
    if |a| == 0 {
    } else if IsSubsequence(b, c[1..]) {
      SubsequenceTransitive(a, b, c[1..]);
    } else if a[0] == b[0] && IsSubsequence(a[1..], b[1..]) {
      SubsequenceTransitive(a[1..], b[1..], c[1..]);
    } else {
      SubsequenceTransitive(a, b[1..], c[1..]);
    }
  }

  lemma {:induction false} PrefixIsSubsequence<T>(s: seq<T>, k: nat)
    requires k <= |s|
    ensures IsSubsequence(s[..k], s)
  {
    if k > 0 {
      PrefixIsSubsequence(s[1..], k - 1);
      assert s[..k][1..] == s[1..][..k - 1];
    }
  }

  /** Array.prototype.filter: the elements of `s` that satisfy `p`, in their
      original order, each as often as it occurs in `s`. */
  function Filter<T(==,!new)>(s: seq<T>, p: T -> bool): (r: seq<T>)
    ensures |r| <= |s|
    ensures forall x :: x in r <==> x in s && p(x)
    ensures IsSubsequence(r, s)
    ensures (forall i :: 0 <= i < |s| ==> p(s[i])) ==> r == s
    decreases |s|
  {
    if |s| == 0 then []
    else
      var rest := Filter(s[1..], p);
      assert s == [s[0]] + s[1..];
      if p(s[0]) then
        assert ([s[0]] + rest)[1..] == rest;
        [s[0]] + rest
      else
        rest
  }

  /** `filter` keeps every copy of a passing element and no copy of a
      failing one. */
  lemma {:induction false} FilterCounts<T(!new)>(s: seq<T>, p: T -> bool)
    ensures forall x :: multiset(Filter(s, p))[x] == if p(x) then multiset(s)[x] else 0
    decreases |s|
  {
    if |s| > 0 {
      FilterCounts(s[1..], p);
      assert s == [s[0]] + s[1..];
      FilterCons(s[0], s[1..], p);
    }
  }

  /** Nothing passes, so nothing is kept. */
  lemma {:induction false} FilterNone<T(!new)>(s: seq<T>, p: T -> bool)
    requires forall x :: x in s ==> !p(x)
    ensures Filter(s, p) == []
    decreases |s|
  {
    if |s| > 0 {
      FilterNone(s[1..], p);
    }
  }

  /** Filtering twice is filtering once by both tests. */
  lemma {:induction false} FilterFusion<T(!new)>(s: seq<T>, p: T -> bool, q: T -> bool)
    ensures Filter(Filter(s, p), q) == Filter(s, Both(p, q))
    decreases |s|
  {
    if |s| > 0 {
      FilterFusion(s[1..], p, q);
      assert s == [s[0]] + s[1..];
      FilterCons(s[0], s[1..], p);
      FilterCons(s[0], s[1..], Both(p, q));
      if p(s[0]) {
        FilterCons(s[0], Filter(s[1..], p), q);
      }
    }
  }

  /** The conjunction of two tests. */
  function Both<T>(p: T -> bool, q: T -> bool): T -> bool
  {
    (x: T) => p(x) && q(x)
  }

  lemma FilterCons<T(!new)>(x: T, s: seq<T>, p: T -> bool)
    ensures Filter([x] + s, p) == (if p(x) then [x] else []) + Filter(s, p)
  {
    assert ([x] + s)[1..] == s;
  }

  /** Filtering by two tests that agree on every element gives the same result. */
  lemma {:induction false} FilterCongruent<T(!new)>(s: seq<T>, p: T -> bool, q: T -> bool)
    requires forall x :: x in s ==> p(x) == q(x)
    ensures Filter(s, p) == Filter(s, q)
    decreases |s|
  {
    if |s| > 0 {
      FilterCongruent(s[1..], p, q);
    }
  }

  /** The index a relative `start` or `end` argument of
      Array.prototype.slice resolves to: negative values count from the
      end, and both ends are clamped to [0, len]. */
  function SliceIndex(relative: int, len: nat): (k: nat)
    ensures k <= len
    ensures 0 <= relative ==> k == if relative < len then relative else len
    ensures relative < 0 ==> k == if len + relative < 0 then 0 else len + relative
  {
    if relative < 0 then (if len + relative < 0 then 0 else len + relative)
    else if relative < len then relative
    else len
  }

  /** Array.prototype.slice(start, end). */
  function Slice<T>(s: seq<T>, start: int, end: int): seq<T>
  {
    var from, to := SliceIndex(start, |s|), SliceIndex(end, |s|);
    if from < to then s[from..to] else []
  }

  lemma SliceNonNegative<T>(s: seq<T>, start: int, end: int)
    requires 0 <= start <= end
    ensures var r := Slice(s, start, end);
      && |r| <= end - start
      && (start >= |s| ==> r == [])
      && (end <= |s| ==> r == s[start..end])
      && (start <= |s| <= end ==> r == s[start..])
  {
  }

  /** `le` orders its argument type totally, up to ties: what the
      comparator handed to Array.prototype.sort must be for the result to
      be defined (a "consistent comparator" in ECMA-262). */
  ghost predicate TotalPreorder<T(!new)>(le: (T, T) -> bool)
  {
    && (forall a, b :: le(a, b) || le(b, a))
    && (forall a, b, c :: le(a, b) && le(b, c) ==> le(a, c))
  }

  predicate Sorted<T>(s: seq<T>, le: (T, T) -> bool)
  {
    forall i, j :: 0 <= i < j < |s| ==> le(s[i], s[j])
  }

  /** Neither of `a`, `b` sorts before the other: the comparator returns 0. */
  predicate Tied<T>(a: T, b: T, le: (T, T) -> bool)
  {
    le(a, b) && le(b, a)
  }

  function TiedWith<T>(v: T, le: (T, T) -> bool): T -> bool
  {
    x => Tied(x, v, le)
  }

  /** The elements of `s` that tie with `v`, in their order in `s`. */
  function SameRank<T(==,!new)>(s: seq<T>, v: T, le: (T, T) -> bool): seq<T>
  {
    Filter(s, TiedWith(v, le))
  }

  /** Inserts `x` in front of the first element it does not sort after. */
  function Insert<T>(x: T, t: seq<T>, le: (T, T) -> bool): (r: seq<T>)
    ensures multiset(r) == multiset(t) + multiset{x}
    ensures |r| == |t| + 1
    decreases |t|
  {
    if |t| == 0 then [x]
    else if le(x, t[0]) then [x] + t
    else
      assert t == [t[0]] + t[1..];
      [t[0]] + Insert(x, t[1..], le)
  }

  /** Array.prototype.sort with comparator `le` (a sorts before or with b):
      ECMA-262 requires the sort to be stable, so for a consistent
      comparator its result is the one stable insertion sort produces. */
  function StableSort<T>(s: seq<T>, le: (T, T) -> bool): (r: seq<T>)
    ensures multiset(r) == multiset(s)
    ensures |r| == |s|
    decreases |s|
  {
    if |s| == 0 then []
    else
      assert s == [s[0]] + s[1..];
      Insert(s[0], StableSort(s[1..], le), le)
  }

  lemma {:induction false} InsertSorted<T(!new)>(x: T, t: seq<T>, le: (T, T) -> bool)
    requires TotalPreorder(le)
    requires Sorted(t, le)
    ensures Sorted(Insert(x, t, le), le)
    decreases |t|
  {
    if |t| > 0 && !le(x, t[0]) {
      assert le(t[0], x);
      var rest := Insert(x, t[1..], le);
      InsertSorted(x, t[1..], le);
      forall y | y in rest
        ensures le(t[0], y)
      {
        assert y in multiset(rest);
        if y != x {
          assert y in t[1..];
        }
      }
    }
  }

  /** With a consistent comparator, the sort's result is ordered. */
  lemma {:induction false} SortSorted<T(!new)>(s: seq<T>, le: (T, T) -> bool)
    requires TotalPreorder(le)
    ensures Sorted(StableSort(s, le), le)
    decreases |s|
  {
    if |s| > 0 {
      SortSorted(s[1..], le);
      InsertSorted(s[0], StableSort(s[1..], le), le);
    }
  }

  lemma {:induction false} InsertSameRank<T(!new)>(x: T, t: seq<T>, v: T, le: (T, T) -> bool)
    requires TotalPreorder(le)
    ensures SameRank(Insert(x, t, le), v, le)
         == (if Tied(x, v, le) then [x] else []) + SameRank(t, v, le)
    decreases |t|
  {
    var p := TiedWith(v, le);
    if |t| == 0 {
      assert [x] == [x] + t;
      FilterCons(x, t, p);
    } else if le(x, t[0]) {
      FilterCons(x, t, p);
    } else {
      var head := if Tied(t[0], v, le) then [t[0]] else [];
      assert t == [t[0]] + t[1..];
      FilterCons(t[0], Insert(x, t[1..], le), p);
      FilterCons(t[0], t[1..], p);
      InsertSameRank(x, t[1..], v, le);
      if Tied(x, v, le) {
        assert !Tied(t[0], v, le);
      }
    }
  }

  /** Stability: elements the comparator ties keep their relative order. */
  lemma {:induction false} SortStable<T(!new)>(s: seq<T>, v: T, le: (T, T) -> bool)
    requires TotalPreorder(le)
    ensures SameRank(StableSort(s, le), v, le) == SameRank(s, v, le)
    decreases |s|
  {
    if |s| > 0 {
      SortStable(s[1..], v, le);
      InsertSameRank(s[0], StableSort(s[1..], le), v, le);
      assert s == [s[0]] + s[1..];
      FilterCons(s[0], s[1..], TiedWith(v, le));
    }
  }

  /** Sorting input that is already in order changes nothing; in
      particular a comparator that ties everything leaves the order as is. */
  lemma {:induction false} SortOfSorted<T>(s: seq<T>, le: (T, T) -> bool)
    requires Sorted(s, le)
    ensures StableSort(s, le) == s
    decreases |s|
  {
    if |s| > 0 {
      assert Sorted(s[1..], le);
      SortOfSorted(s[1..], le);
      assert s == [s[0]] + s[1..];
    }
  }
}
