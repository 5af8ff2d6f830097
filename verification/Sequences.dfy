/** Mapping and flattening over sequences, and what a permutation of the input does to the result. */
module Sequences {

  function FlatMap<A, B>(xs: seq<A>, f: A -> seq<B>): seq<B> {
    if xs == [] then [] else f(xs[0]) + FlatMap(xs[1..], f)
  }

  lemma {:induction false} FlatMapConcat<A, B>(xs: seq<A>, ys: seq<A>, f: A -> seq<B>)
    ensures FlatMap(xs + ys, f) == FlatMap(xs, f) + FlatMap(ys, f)
  {
    if xs == [] {
      assert xs + ys == ys;
    } else {
      assert (xs + ys)[1..] == xs[1..] + ys;
      FlatMapConcat(xs[1..], ys, f);
    }
  }

  lemma {:induction false} FlatMapHolds<A, B>(xs: seq<A>, i: nat, f: A -> seq<B>)
    requires i < |xs|
    ensures |FlatMap(xs, f)| >= |f(xs[i])|
  {
    if i > 0 { FlatMapHolds(xs[1..], i - 1, f); }
  }

  lemma {:induction false} FlatMapHoldsTwo<A, B>(xs: seq<A>, i: nat, j: nat, f: A -> seq<B>)
    requires i < j < |xs|
    ensures |FlatMap(xs, f)| >= |f(xs[i])| + |f(xs[j])|
  {
    if i > 0 { FlatMapHoldsTwo(xs[1..], i - 1, j - 1, f); } else { FlatMapHolds(xs[1..], j - 1, f); }
  }

  /** If only element i has a share, it is the whole. */
  lemma {:induction false} FlatMapOnly<A, B>(xs: seq<A>, i: nat, f: A -> seq<B>)
    requires i < |xs| && forall j :: 0 <= j < |xs| && j != i ==> f(xs[j]) == []
    ensures FlatMap(xs, f) == f(xs[i])
  {
    if i == 0 {
      FlatMapNone(xs[1..], f);
    } else {
      FlatMapOnly(xs[1..], i - 1, f);
    }
  }

  lemma {:induction false} FlatMapNone<A, B>(xs: seq<A>, f: A -> seq<B>)
    requires forall j :: 0 <= j < |xs| ==> f(xs[j]) == []
    ensures FlatMap(xs, f) == []
  {
    if xs != [] { FlatMapNone(xs[1..], f); }
  }

  /** If the whole is one element, exactly one element of xs has a share. */
  lemma {:induction false} FlatMapSingle<A, B>(xs: seq<A>, f: A -> seq<B>) returns (i: nat)
    requires |FlatMap(xs, f)| == 1
    ensures i < |xs| && f(xs[i]) != [] && forall j :: 0 <= j < |xs| && j != i ==> f(xs[j]) == []
  {
    i := FlatMapSome(xs, f);
    forall j | 0 <= j < |xs| && j != i ensures f(xs[j]) == [] {
      if j < i { FlatMapHoldsTwo(xs, j, i, f); } else { FlatMapHoldsTwo(xs, i, j, f); }
    }
  }

  lemma {:induction false} FlatMapSome<A, B>(xs: seq<A>, f: A -> seq<B>) returns (i: nat)
    requires FlatMap(xs, f) != []
    ensures i < |xs| && f(xs[i]) != []
  {
    if f(xs[0]) != [] {
      i := 0;
    } else {
      var k := FlatMapSome(xs[1..], f);
      i := k + 1;
    }
  }

  lemma RemoveAt<A>(xs: seq<A>, i: nat)
    requires i < |xs|
    ensures multiset(xs) == multiset(xs[..i] + xs[i + 1..]) + multiset{xs[i]}
  {
    assert xs == xs[..i] + [xs[i]] + xs[i + 1..];
  }

  /** Taking element i out of xs takes f's share for it out of the flattened sequence. */
  lemma FlatMapRemoveAt<A, B>(xs: seq<A>, i: nat, f: A -> seq<B>)
    requires i < |xs|
    ensures multiset(FlatMap(xs, f)) == multiset(f(xs[i])) + multiset(FlatMap(xs[..i] + xs[i + 1..], f))
  {
    FlatMapConcat(xs[..i], xs[i..], f);
    FlatMapConcat(xs[..i], xs[i + 1..], f);
    assert xs[..i] + xs[i..] == xs;
    assert xs[i..][1..] == xs[i + 1..];
  }

  /** A permutation ys of xs has the head of xs somewhere; without it, the rests are permutations. */
  lemma FindHead<A>(xs: seq<A>, ys: seq<A>) returns (j: nat)
    requires xs != [] && multiset(xs) == multiset(ys)
    ensures j < |ys| && ys[j] == xs[0]
    ensures multiset(xs[1..]) == multiset(ys[..j] + ys[j + 1..])
  {
    assert xs[0] in multiset(ys);
    j :| 0 <= j < |ys| && ys[j] == xs[0];
    RemoveAt(xs, 0);
    RemoveAt(ys, j);
    assert xs[..0] + xs[1..] == xs[1..];
    assert multiset(xs[1..]) == multiset(xs) - multiset{xs[0]};
    assert multiset(ys[..j] + ys[j + 1..]) == multiset(ys) - multiset{xs[0]};
  }

  /** Reordering the input only reorders the output. */
  lemma {:induction false} FlatMapPermutation<A, B>(xs: seq<A>, ys: seq<A>, f: A -> seq<B>)
    requires multiset(xs) == multiset(ys)
    ensures multiset(FlatMap(xs, f)) == multiset(FlatMap(ys, f))
    decreases |xs|
  {
    if xs == [] {
      assert |multiset(ys)| == 0;
    } else {
      var j := FindHead(xs, ys);
      FlatMapPermutation(xs[1..], ys[..j] + ys[j + 1..], f);
      FlatMapRemoveAt(ys, j, f);
    }
  }

  /** Two permutations with one element each hold the same element. */
  lemma SingletonPermutation<A>(xs: seq<A>, ys: seq<A>)
    requires multiset(xs) == multiset(ys)
    ensures |xs| == |ys|
    ensures |xs| == 1 ==> xs == ys
  {
    assert |multiset(xs)| == |xs| && |multiset(ys)| == |ys|;
    if |xs| == 1 {
      assert ys[0] in multiset(xs);
    }
  }
}
