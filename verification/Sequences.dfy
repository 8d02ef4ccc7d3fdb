/** Facts about sequences that proofs state once and use by name. */
module Sequences {

  predicate Distinct<T(==)>(s: seq<T>) {
    forall i, j | 0 <= i < j < |s| :: s[i] != s[j]
  }

  predicate SameMembers<T(==)>(s: seq<T>, t: seq<T>) {
    (forall x | x in s :: x in t) && (forall x | x in t :: x in s)
  }

  lemma AppendAssociates<T>(a: seq<T>, b: seq<T>, c: seq<T>)
    ensures a + (b + c) == (a + b) + c
  {
  }

  lemma CancelPrefix<T>(a: seq<T>, b: seq<T>, c: seq<T>)
    ensures a + b == a + c <==> b == c
  {
    assert (a + b)[|a|..] == b && (a + c)[|a|..] == c;
  }

  /** Every element stands in relation `r` to every later one. */
  ghost predicate Pairwise<T>(s: seq<T>, r: (T, T) -> bool) {
    forall i, j | 0 <= i < j < |s| :: r(s[i], s[j])
  }

  lemma PairwiseConcat<T>(s: seq<T>, t: seq<T>, r: (T, T) -> bool)
    ensures Pairwise(s + t, r) <==> Pairwise(s, r) && Pairwise(t, r) && forall x, y | x in s && y in t :: r(x, y)
  {
    var both := s + t;
    if Pairwise(both, r) {
      forall i, j | 0 <= i < j < |s| ensures r(s[i], s[j]) {
        assert both[i] == s[i] && both[j] == s[j];
      }
      forall i, j | 0 <= i < j < |t| ensures r(t[i], t[j]) {
        assert both[|s| + i] == t[i] && both[|s| + j] == t[j];
      }
      forall x, y | x in s && y in t ensures r(x, y) {
        var i :| 0 <= i < |s| && s[i] == x;
        var j :| 0 <= j < |t| && t[j] == y;
        assert both[i] == x && both[|s| + j] == y;
      }
    }
  }

  lemma PairwiseCons<T>(x: T, s: seq<T>, r: (T, T) -> bool)
    ensures Pairwise([x] + s, r) <==> Pairwise(s, r) && forall y | y in s :: r(x, y)
  {
    PairwiseConcat([x], s, r);
  }

  lemma MultisetMembers<T>(s: seq<T>, t: seq<T>)
    requires multiset(s) == multiset(t)
    ensures forall x :: x in s <==> x in t
  {
    assert forall x :: x in s <==> x in multiset(s);
    assert forall x :: x in t <==> x in multiset(t);
  }

  /** Taking out one occurrence. */
  lemma TakeOut<T>(s: seq<T>, k: nat)
    requires k < |s|
    ensures s == s[..k] + [s[k]] + s[k + 1..]
    ensures multiset(s) == multiset{s[k]} + multiset(s[..k] + s[k + 1..])
  {
    assert s == s[..k] + [s[k]] + s[k + 1..];
  }

  lemma CancelOne<T>(x: T, a: multiset<T>, b: multiset<T>)
    requires multiset{x} + a == multiset{x} + b
    ensures a == b
  {
    assert a == (multiset{x} + a) - multiset{x};
    assert b == (multiset{x} + b) - multiset{x};
  }

  /** An element of a shuffled sequence can be taken out of both. */
  lemma TakeOutHead<T>(s: seq<T>, t: seq<T>) returns (before: seq<T>, after: seq<T>)
    requires s != [] && multiset(s) == multiset(t)
    ensures t == before + ([s[0]] + after) && multiset(before + after) == multiset(s[1..])
    ensures |before + after| < |t|
  {
    var x := s[0];
    MultisetMembers(s, t);
    assert x in t;
    var k :| 0 <= k < |t| && t[k] == x;
    before, after := t[..k], t[k + 1..];
    TakeOut(t, k);
    TakeOut(s, 0);
    assert s[..0] + s[1..] == s[1..];
    AppendAssociates(before, [x], after);
    hide *;
    CancelOne(x, multiset(before + after), multiset(s[1..]));
  }

  /** A symmetric relation holds pairwise in every order of the elements. */
  lemma {:induction false} PairwiseShuffled<T(!new)>(s: seq<T>, t: seq<T>, r: (T, T) -> bool)
    requires multiset(s) == multiset(t) && Pairwise(s, r)
    requires forall x, y :: r(x, y) <==> r(y, x)
    ensures Pairwise(t, r)
    decreases |s|
  {
    assert |s| == |multiset(s)| && |t| == |multiset(t)|;
    if s != [] {
      var x, rest := s[0], s[1..];
      assert s == [x] + rest;
      var before, after := TakeOutHead(s, t);
      hide Pairwise;
      PairwiseCons(x, rest, r);
      PairwiseShuffled(rest, before + after, r);
      MultisetMembers(rest, before + after);
      PlaceBetween(x, before, after, r);
    }
  }

  lemma PlaceBetween<T(!new)>(x: T, before: seq<T>, after: seq<T>, r: (T, T) -> bool)
    requires Pairwise(before + after, r) && forall y | y in before + after :: r(x, y)
    requires forall y, z :: r(y, z) <==> r(z, y)
    ensures Pairwise(before + ([x] + after), r)
  {
    hide Pairwise;
    assert forall y | y in before :: y in before + after;
    assert forall y | y in after :: y in before + after;
    PairwiseConcat(before, after, r);
    PairwiseCons(x, after, r);
    PairwiseConcat(before, [x] + after, r);
  }
}
