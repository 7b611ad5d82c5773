/** Sorting by a comparator, and why its result is canonical when no two elements tie. */
module Sorting {
  /** A comparator is consistent: swapping arguments swaps the sign, and less-than is transitive. */
  ghost predicate Consistent<T(!new)>(compare: (T, T) -> int) {
    && (forall x, y :: compare(x, y) < 0 <==> compare(y, x) > 0)
    && (forall x, y, z :: compare(x, y) < 0 && compare(y, z) < 0 ==> compare(x, z) < 0)
  }

  ghost predicate Ranked<T>(compare: (T, T) -> int, s: seq<T>) {
    forall i, j :: 0 <= i < j < |s| ==> compare(s[i], s[j]) < 0
  }

  ghost predicate NoTies<T>(compare: (T, T) -> int, s: seq<T>) {
    forall i, j :: 0 <= i < j < |s| ==> compare(s[i], s[j]) != 0
  }

  /** Stable insertion: after every element that does not compare greater. */
  function Insert<T>(compare: (T, T) -> int, sorted: seq<T>, x: T): seq<T> {
    if sorted == [] || compare(sorted[|sorted| - 1], x) <= 0 then sorted + [x]
    else Insert(compare, sorted[..|sorted| - 1], x) + [sorted[|sorted| - 1]]
  }

  function SortBy<T>(compare: (T, T) -> int, s: seq<T>): seq<T> {
    if s == [] then [] else Insert(compare, SortBy(compare, s[..|s| - 1]), s[|s| - 1])
  }

  lemma {:induction false} InsertPermutes<T>(compare: (T, T) -> int, sorted: seq<T>, x: T)
    ensures multiset(Insert(compare, sorted, x)) == multiset(sorted) + multiset{x}
  {
    if sorted != [] && compare(sorted[|sorted| - 1], x) > 0 {
      InsertPermutes(compare, sorted[..|sorted| - 1], x);
      assert sorted == sorted[..|sorted| - 1] + [sorted[|sorted| - 1]];
    }
  }

  lemma InsertedIsBelow<T>(compare: (T, T) -> int, sorted: seq<T>, x: T, last: T)
    requires compare(x, last) < 0 && forall i :: 0 <= i < |sorted| ==> compare(sorted[i], last) < 0
    ensures forall i :: 0 <= i < |Insert(compare, sorted, x)| ==> compare(Insert(compare, sorted, x)[i], last) < 0
  {
    var inserted := Insert(compare, sorted, x);
    InsertPermutes(compare, sorted, x);
    forall i | 0 <= i < |inserted| ensures compare(inserted[i], last) < 0 {
      assert inserted[i] in multiset(inserted);
      assert inserted[i] == x || inserted[i] in sorted;
    }
  }

  lemma RankedSnoc<T>(compare: (T, T) -> int, s: seq<T>, last: T)
    requires Ranked(compare, s) && forall i :: 0 <= i < |s| ==> compare(s[i], last) < 0
    ensures Ranked(compare, s + [last])
  {
  }

  lemma {:induction false} InsertRanks<T>(compare: (T, T) -> int, sorted: seq<T>, x: T)
    requires Ranked(compare, sorted)
    requires forall i :: 0 <= i < |sorted| ==> compare(sorted[i], x) != 0
    requires forall i :: 0 <= i < |sorted| && compare(sorted[i], x) > 0 ==> compare(x, sorted[i]) < 0
    requires forall i, j :: 0 <= i < j < |sorted| && compare(sorted[j], x) < 0 ==> compare(sorted[i], x) < 0
    ensures Ranked(compare, Insert(compare, sorted, x))
  {
    if sorted != [] && compare(sorted[|sorted| - 1], x) > 0 {
      var n := |sorted| - 1;
      InsertRanks(compare, sorted[..n], x);
      InsertedIsBelow(compare, sorted[..n], x, sorted[n]);
      RankedSnoc(compare, Insert(compare, sorted[..n], x), sorted[n]);
    } else if sorted != [] {
      assert compare(sorted[|sorted| - 1], x) < 0;
      RankedSnoc(compare, sorted, x);
    }
  }

  lemma {:induction false} SortPermutes<T>(compare: (T, T) -> int, s: seq<T>)
    ensures multiset(SortBy(compare, s)) == multiset(s)
  {
    if s != [] {
      SortPermutes(compare, s[..|s| - 1]);
      InsertPermutes(compare, SortBy(compare, s[..|s| - 1]), s[|s| - 1]);
      assert s == s[..|s| - 1] + [s[|s| - 1]];
    }
  }

  lemma SortedDoesNotTie<T(!new)>(compare: (T, T) -> int, s: seq<T>, n: nat)
    requires n < |s| && NoTies(compare, s)
    ensures forall x :: x in SortBy(compare, s[..n]) ==> compare(x, s[n]) != 0
  {
    SortPermutes(compare, s[..n]);
    forall x | x in SortBy(compare, s[..n]) ensures compare(x, s[n]) != 0 {
      assert x in multiset(s[..n]);
      var k :| 0 <= k < n && s[k] == x;
    }
  }

  lemma BelowIsClosed<T(!new)>(compare: (T, T) -> int, sorted: seq<T>, x: T)
    requires Consistent(compare) && Ranked(compare, sorted)
    ensures forall i, j :: 0 <= i < j < |sorted| && compare(sorted[j], x) < 0 ==> compare(sorted[i], x) < 0
  {
    forall i, j | 0 <= i < j < |sorted| && compare(sorted[j], x) < 0 ensures compare(sorted[i], x) < 0 {
      assert compare(sorted[i], sorted[j]) < 0;
    }
  }

  lemma NoTiesBefore<T>(compare: (T, T) -> int, s: seq<T>, n: nat)
    requires n <= |s| && NoTies(compare, s)
    ensures NoTies(compare, s[..n])
  {
  }

  lemma {:induction false} SortRanks<T(!new)>(compare: (T, T) -> int, s: seq<T>)
    requires Consistent(compare) && NoTies(compare, s)
    ensures Ranked(compare, SortBy(compare, s))
  {
    if s != [] {
      var n := |s| - 1;
      NoTiesBefore(compare, s, n);
      SortRanks(compare, s[..n]);
      SortedDoesNotTie(compare, s, n);
      BelowIsClosed(compare, SortBy(compare, s[..n]), s[n]);
      InsertRanks(compare, SortBy(compare, s[..n]), s[n]);
    }
  }

  lemma SmallestIsFirst<T(!new)>(compare: (T, T) -> int, a: seq<T>, b: seq<T>)
    requires Consistent(compare) && Ranked(compare, a) && Ranked(compare, b) && multiset(a) == multiset(b) && a != []
    ensures b != [] && a[0] == b[0]
  {
    assert a[0] in multiset(a);
    assert a[0] in multiset(b);
    assert b[0] in multiset(a);
    var i :| 0 <= i < |b| && b[i] == a[0];
    var j :| 0 <= j < |a| && a[j] == b[0];
    RankedFromHead(compare, b, i);
    RankedFromHead(compare, a, j);
  }

  lemma RankedFromHead<T>(compare: (T, T) -> int, s: seq<T>, i: nat)
    requires Ranked(compare, s) && i < |s|
    ensures i > 0 ==> compare(s[0], s[i]) < 0
  {
  }

  lemma TailMultiset<T>(s: seq<T>)
    requires s != []
    ensures multiset(s[1..]) == multiset(s) - multiset{s[0]}
  {
    assert s == [s[0]] + s[1..];
  }

  lemma RankedTail<T>(compare: (T, T) -> int, s: seq<T>)
    requires s != [] && Ranked(compare, s)
    ensures Ranked(compare, s[1..])
  {
  }

  /** There is only one way to rank a collection. */
  lemma {:induction false} RankingIsUnique<T(!new)>(compare: (T, T) -> int, a: seq<T>, b: seq<T>)
    requires Consistent(compare) && Ranked(compare, a) && Ranked(compare, b) && multiset(a) == multiset(b)
    ensures a == b
  {
    if a == [] {
      assert |multiset(b)| == |b| == 0;
    } else {
      SmallestIsFirst(compare, a, b);
      RankedTail(compare, a);
      RankedTail(compare, b);
      var rest, rest' := a[1..], b[1..];
      assert multiset(rest) == multiset(rest') by {
        TailMultiset(a);
        TailMultiset(b);
      }
      RankingIsUnique(compare, rest, rest');
      SameHeadSameTail(a, b);
    }
  }

  lemma SameHeadSameTail<T>(a: seq<T>, b: seq<T>)
    requires a != [] && b != [] && a[0] == b[0] && a[1..] == b[1..]
    ensures a == b
  {
    assert a == [a[0]] + a[1..] && b == [b[0]] + b[1..];
  }

  /** Sorting without ties forgets the order of its input. */
  lemma SortIsCanonical<T(!new)>(compare: (T, T) -> int, a: seq<T>, b: seq<T>)
    requires Consistent(compare) && NoTies(compare, a) && NoTies(compare, b) && multiset(a) == multiset(b)
    ensures SortBy(compare, a) == SortBy(compare, b)
  {
    SortRanks(compare, a);
    SortRanks(compare, b);
    SortPermutes(compare, a);
    SortPermutes(compare, b);
    RankingIsUnique(compare, SortBy(compare, a), SortBy(compare, b));
  }
}
