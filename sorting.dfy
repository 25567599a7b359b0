/** Python's `sorted(xs, key=...)` where the keys of the elements are pairwise different:
    the ordering is then a strict total order on the elements, and the sorted list is
    the only arrangement of the elements that is ordered by it, whatever algorithm
    produces it. */
module Sorting {

  /** `lt` is a strict total order on the elements of `s`. */
  ghost predicate StrictTotalOn<T>(lt: (T, T) -> bool, s: seq<T>)
  {
    && (forall a :: a in s ==> !lt(a, a))
    && (forall a, b, c :: a in s && b in s && c in s && lt(a, b) && lt(b, c) ==> lt(a, c))
    && (forall a, b :: a in s && b in s && a != b ==> lt(a, b) || lt(b, a))
  }

  predicate SortedBy<T>(lt: (T, T) -> bool, s: seq<T>)
  {
    forall i, j :: 0 <= i < j < |s| ==> lt(s[i], s[j])
  }

  predicate Distinct<T(==)>(s: seq<T>)
  {
    forall i, j :: 0 <= i < j < |s| ==> s[i] != s[j]
  }

  lemma {:induction false} StrictTotalOnSub<T>(lt: (T, T) -> bool, s: seq<T>, t: seq<T>)
    requires StrictTotalOn(lt, s)
    requires forall x :: x in t ==> x in s
    ensures StrictTotalOn(lt, t)
  {
  }

  /** Prepending an element that is below every element keeps a sequence ordered. */
  lemma {:induction false} SortedCons<T>(lt: (T, T) -> bool, h: T, t: seq<T>)
    requires SortedBy(lt, t)
    requires forall k :: 0 <= k < |t| ==> lt(h, t[k])
    ensures SortedBy(lt, [h] + t)
  {
  }

  /** An element below the head of an ordered sequence is below all of it. */
  lemma {:induction false} BelowHead<T>(lt: (T, T) -> bool, x: T, r: seq<T>)
    requires StrictTotalOn(lt, [x] + r)
    requires SortedBy(lt, r) && |r| > 0 && lt(x, r[0])
    ensures SortedBy(lt, [x] + r)
  {
    forall k | 0 < k < |r| ensures lt(x, r[k]) {
      assert lt(r[0], r[k]);
      assert x in [x] + r && r[0] in [x] + r && r[k] in [x] + r;
    }
    SortedCons(lt, x, r);
  }

  /** An element not below the head of an ordered sequence is above it. */
  lemma {:induction false} AboveHead<T>(lt: (T, T) -> bool, x: T, r: seq<T>)
    requires StrictTotalOn(lt, [x] + r)
    requires |r| > 0 && x !in r && !lt(x, r[0])
    ensures lt(r[0], x) && StrictTotalOn(lt, [x] + r[1..])
  {
    assert x in [x] + r && r[0] in [x] + r;
    StrictTotalOnSub(lt, [x] + r, [x] + r[1..]);
  }

  /** The head of an ordered sequence stays in front of an ordered sequence whose elements
      are all above it. */
  lemma {:induction false} HeadInFront<T>(lt: (T, T) -> bool, h: T, tail: seq<T>)
    requires SortedBy(lt, tail)
    requires forall y :: y in tail ==> lt(h, y)
    ensures SortedBy(lt, [h] + tail)
  {
    forall k | 0 <= k < |tail| ensures lt(h, tail[k]) {
      assert tail[k] in tail;
    }
    SortedCons(lt, h, tail);
  }

  /** Inserts `x` into the ordered `r` at its place. */
  function Insert<T>(x: T, r: seq<T>, lt: (T, T) -> bool): (o: seq<T>)
    requires StrictTotalOn(lt, [x] + r)
    requires SortedBy(lt, r) && x !in r
    ensures multiset(o) == multiset(r) + multiset{x}
    ensures forall y :: y in o ==> y == x || y in r
    ensures SortedBy(lt, o)
  {
    if |r| == 0 then [x]
    else if lt(x, r[0]) then
      BelowHead(lt, x, r);
      [x] + r
    else
      AboveHead(lt, x, r);
      var tail := Insert(x, r[1..], lt);
      HeadInFront(lt, r[0], tail);
      assert r == [r[0]] + r[1..];
      [r[0]] + tail
  }

  /** The model of `sorted`: insertion sort under the strict order `lt`. */
  function Sort<T(!new)>(s: seq<T>, lt: (T, T) -> bool): (r: seq<T>)
    requires StrictTotalOn(lt, s) && Distinct(s)
    ensures multiset(r) == multiset(s)
    ensures SortedBy(lt, r)
  {
    if |s| == 0 then []
    else
      SortTail(s, lt);
      var r := Sort(s[1..], lt);
      SortHead(s, r, lt);
      Insert(s[0], r, lt)
  }

  lemma {:induction false} SortTail<T>(s: seq<T>, lt: (T, T) -> bool)
    requires StrictTotalOn(lt, s) && Distinct(s) && |s| > 0
    ensures StrictTotalOn(lt, s[1..]) && Distinct(s[1..])
  {
    StrictTotalOnSub(lt, s, s[1..]);
  }

  /** The head of a sequence without repeats can be inserted into the sorted tail. */
  lemma {:induction false} SortHead<T>(s: seq<T>, r: seq<T>, lt: (T, T) -> bool)
    requires StrictTotalOn(lt, s) && Distinct(s) && |s| > 0
    requires multiset(r) == multiset(s[1..])
    ensures StrictTotalOn(lt, [s[0]] + r) && s[0] !in r
    ensures multiset(s) == multiset(r) + multiset{s[0]}
  {
    assert s == [s[0]] + s[1..];
    assert s[0] !in s[1..];
    assert s[0] !in multiset(s[1..]);
    assert s[0] !in multiset(r);
    forall y | y in r ensures y in s {
      assert y in multiset(r);
    }
    StrictTotalOnSub(lt, s, [s[0]] + r);
  }

  /** Two orderings of the same elements that are both ordered by `lt` are equal, so the
      sorted result does not depend on how the input was arranged. */
  lemma {:induction false} SortedUnique<T>(lt: (T, T) -> bool, a: seq<T>, b: seq<T>)
    requires StrictTotalOn(lt, a)
    requires SortedBy(lt, a) && SortedBy(lt, b)
    requires multiset(a) == multiset(b)
    ensures a == b
    decreases |a|
  {
    assert |a| == |multiset(a)| == |multiset(b)| == |b|;
    if |a| > 0 {
      assert a[0] in multiset(b);
      assert b[0] in multiset(a);
      assert a == [a[0]] + a[1..];
      assert b == [b[0]] + b[1..];
      assert multiset(a[1..]) == multiset(a) - multiset{a[0]};
      assert multiset(b[1..]) == multiset(b) - multiset{b[0]};
      StrictTotalOnSub(lt, a, a[1..]);
      SortedUnique(lt, a[1..], b[1..]);
    }
  }

  /** In an ordered sequence, every element of a prefix comes before every element
      outside it. */
  lemma {:induction false} PrefixRanksFirst<T>(lt: (T, T) -> bool, r: seq<T>, out: seq<T>)
    requires SortedBy(lt, r)
    requires |out| <= |r| && out == r[..|out|]
    ensures forall c, x :: c in r && c !in out && x in out ==> lt(x, c)
  {
    forall c, x | c in r && c !in out && x in out ensures lt(x, c) {
      var j :| 0 <= j < |r| && r[j] == c;
      var i :| 0 <= i < |out| && out[i] == x;
      assert forall k :: 0 <= k < |out| ==> r[k] == out[k] && out[k] != c;
      assert j >= |out|;
      assert x == r[i];
    }
  }

  /** The head of an ordered sequence comes before every other element. */
  lemma {:induction false} HeadRanksFirst<T>(lt: (T, T) -> bool, r: seq<T>)
    requires SortedBy(lt, r) && |r| > 0
    ensures forall c :: c in r && c != r[0] ==> lt(r[0], c)
  {
    forall c | c in r && c != r[0] ensures lt(r[0], c) {
      var j :| 0 <= j < |r| && r[j] == c;
    }
  }

  /** A sequence ordered strictly has no repeated element. */
  lemma {:induction false} SortedDistinct<T>(lt: (T, T) -> bool, s: seq<T>)
    requires StrictTotalOn(lt, s) && SortedBy(lt, s)
    ensures Distinct(s)
  {
    forall i, j | 0 <= i < j < |s| ensures s[i] != s[j] {
      assert s[i] in s && lt(s[i], s[j]);
    }
  }

  /** In a sequence without repeats every element occurs at most once. */
  lemma {:induction false} DistinctCount<T>(s: seq<T>, x: T)
    requires Distinct(s)
    ensures multiset(s)[x] <= 1
  {
    if |s| > 0 {
      assert s == [s[0]] + s[1..];
      DistinctCount(s[1..], x);
      if x == s[0] {
        assert x !in s[1..];
      }
    }
  }
}
