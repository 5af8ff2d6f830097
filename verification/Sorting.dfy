/** A stable sort by a comparison, and the distinct elements of a sequence. */
module Sorting {

  function Filter<T>(xs: seq<T>, f: T -> bool): seq<T> {
    if xs == [] then [] else (if f(xs[0]) then [xs[0]] else []) + Filter(xs[1..], f)
  }

  function Insert<T>(x: T, xs: seq<T>, le: (T, T) -> bool): seq<T> {
    if xs == [] || le(x, xs[0]) then [x] + xs else [xs[0]] + Insert(x, xs[1..], le)
  }

  /** Elements that compare equal keep their order. */
  function Sort<T>(xs: seq<T>, le: (T, T) -> bool): seq<T> {
    if xs == [] then [] else Insert(xs[0], Sort(xs[1..], le), le)
  }

  predicate Sorted<T>(xs: seq<T>, le: (T, T) -> bool) { forall i, j :: 0 <= i < j < |xs| ==> le(xs[i], xs[j]) }

  /** The comparison orders the elements of xs: any two are related, and relations chain. */
  ghost predicate Orders<T>(xs: seq<T>, le: (T, T) -> bool) {
    && (forall x, y :: x in xs && y in xs ==> le(x, y) || le(y, x))
    && (forall x, y, z :: x in xs && y in xs && z in xs && le(x, y) && le(y, z) ==> le(x, z))
  }

  lemma {:induction false} InsertKeeps<T>(x: T, xs: seq<T>, le: (T, T) -> bool)
    ensures multiset(Insert(x, xs, le)) == multiset{x} + multiset(xs)
  {
    if xs == [] || le(x, xs[0]) {
      assert multiset([x] + xs) == multiset{x} + multiset(xs);
    } else {
      InsertKeeps(x, xs[1..], le);
      assert xs == [xs[0]] + xs[1..];
    }
  }

  lemma {:induction false} SortPermutes<T>(xs: seq<T>, le: (T, T) -> bool)
    ensures multiset(Sort(xs, le)) == multiset(xs)
  {
    if xs != [] {
      SortPermutes(xs[1..], le);
      InsertKeeps(xs[0], Sort(xs[1..], le), le);
      assert xs == [xs[0]] + xs[1..];
    }
  }

  lemma {:induction false} InsertMembers<T>(x: T, xs: seq<T>, le: (T, T) -> bool)
    ensures forall i :: 0 <= i < |Insert(x, xs, le)| ==> Insert(x, xs, le)[i] == x || Insert(x, xs, le)[i] in xs
  {
    if xs != [] && !le(x, xs[0]) {
      InsertMembers(x, xs[1..], le);
      assert xs == [xs[0]] + xs[1..];
    }
  }

  lemma InPermutation<T>(x: T, xs: seq<T>, ys: seq<T>)
    requires multiset(xs) == multiset(ys) && x in xs
    ensures x in ys
  {
    assert x in multiset(xs);
    assert x in multiset(ys);
  }

  lemma {:induction false} InsertSorts<T>(x: T, xs: seq<T>, le: (T, T) -> bool)
    requires Sorted(xs, le) && Orders([x] + xs, le)
    ensures Sorted(Insert(x, xs, le), le)
  {
    if xs == [] {
    } else if le(x, xs[0]) {
      forall j | 0 <= j < |xs| ensures le(x, xs[j]) {
        assert x in [x] + xs && xs[0] in [x] + xs && xs[j] in [x] + xs;
        assert j > 0 ==> le(xs[0], xs[j]);
      }
    } else {
      assert x in [x] + xs && xs[0] in [x] + xs;
      assert forall y :: y in [x] + xs[1..] ==> y in [x] + xs;
      InsertSorts(x, xs[1..], le);
      InsertMembers(x, xs[1..], le);
      var rest := Insert(x, xs[1..], le);
      forall j | 0 <= j < |rest| ensures le(xs[0], rest[j]) {
        if rest[j] != x {
          var k :| 0 <= k < |xs[1..]| && xs[1..][k] == rest[j];
          assert le(xs[0], xs[k + 1]);
        }
      }
    }
  }

  lemma {:induction false} SortSorts<T>(xs: seq<T>, le: (T, T) -> bool)
    requires Orders(xs, le)
    ensures Sorted(Sort(xs, le), le)
  {
    if xs != [] {
      assert forall y :: y in xs[1..] ==> y in xs;
      var rest := Sort(xs[1..], le);
      SortSorts(xs[1..], le);
      SortPermutes(xs[1..], le);
      forall y | y in [xs[0]] + rest ensures y in xs {
        if y in rest { InPermutation(y, rest, xs[1..]); }
      }
      InsertSorts(xs[0], rest, le);
    }
  }

  /** `[...new Set(xs)]`: first occurrences, in order. */
  function Distinct<T(==, !new)>(xs: seq<T>): (r: seq<T>)
    ensures forall x :: x in r <==> x in xs
    ensures forall i, j :: 0 <= i < j < |r| ==> r[i] != r[j]
  {
    if xs == [] then []
    else
      var before := Distinct(xs[..|xs| - 1]);
      var last := xs[|xs| - 1];
      assert xs == xs[..|xs| - 1] + [last];
      if last in before then before else before + [last]
  }

  // ------------------------------------------------------------ order among equals

  /** The elements that compare equal to y. */
  function Same<T>(le: (T, T) -> bool, y: T): T -> bool { (x: T) => le(x, y) && le(y, x) }

  lemma {:induction false} TiesOfInsert<T>(x: T, xs: seq<T>, le: (T, T) -> bool, y: T, all: seq<T>)
    requires Orders(all, le) && y in all && x in all && forall z :: z in xs ==> z in all
    ensures Filter(Insert(x, xs, le), Same(le, y)) == Filter([x] + xs, Same(le, y))
    decreases |xs|
  {
    if xs != [] && !le(x, xs[0]) {
      var rest := xs[1..];
      assert xs[0] in all;
      assert !(Same(le, y)(x) && Same(le, y)(xs[0]));
      TiesOfInsert(x, rest, le, y, all);
      assert ([x] + rest)[1..] == rest && ([x] + xs)[1..] == xs;
    }
  }

  lemma {:induction false} SortKeepsTies<T>(xs: seq<T>, le: (T, T) -> bool, y: T)
    requires Orders(xs, le) && y in xs
    ensures Filter(Sort(xs, le), Same(le, y)) == Filter(xs, Same(le, y))
  {
    TiesOfSort(xs, le, y, xs);
  }

  lemma {:induction false} TiesOfSort<T>(xs: seq<T>, le: (T, T) -> bool, y: T, all: seq<T>)
    requires Orders(all, le) && y in all && forall z :: z in xs ==> z in all
    ensures Filter(Sort(xs, le), Same(le, y)) == Filter(xs, Same(le, y))
    decreases |xs|
  {
    if xs != [] {
      var rest := Sort(xs[1..], le);
      TiesOfSort(xs[1..], le, y, all);
      SortPermutes(xs[1..], le);
      forall z | z in rest ensures z in all {
        InPermutation(z, rest, xs[1..]);
      }
      TiesOfInsert(xs[0], rest, le, y, all);
      assert ([xs[0]] + rest)[1..] == rest;
    }
  }

  /** Wherever y stands in xs, x stands before it. */
  predicate ComesBefore<T(==)>(xs: seq<T>, x: T, y: T) {
    forall k :: 0 <= k < |xs| && xs[k] == y ==> x in xs[..k]
  }

  /** Distinct elements come in the order of their first occurrences. */
  lemma {:induction false} DistinctKeepsOrder<T(!new)>(xs: seq<T>, i: nat, j: nat)
    requires i < j < |Distinct(xs)|
    ensures ComesBefore(xs, Distinct(xs)[i], Distinct(xs)[j])
  {
    var n := |xs| - 1;
    var before, r := Distinct(xs[..n]), Distinct(xs);
    assert before[i] in xs[..n];
    if j < |before| {
      DistinctKeepsOrder(xs[..n], i, j);
      assert r[j] in xs[..n];
    }
    forall k | 0 <= k < |xs| && xs[k] == r[j] ensures r[i] in xs[..k] {
      if k < n {
        assert xs[..n][k] == r[j] && xs[..n][..k] == xs[..k];
      }
    }
  }
}
