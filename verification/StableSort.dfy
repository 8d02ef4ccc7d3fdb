/** `sorted(..., key=...)` and `list.sort`: a stable sort by a total preorder. */
module StableSort {

  ghost predicate TotalPreorder<T(!new)>(le: (T, T) -> bool) {
    && (forall a, b :: le(a, b) || le(b, a))
    && (forall a, b, c :: le(a, b) && le(b, c) ==> le(a, c))
  }

  function Insert<T>(x: T, sorted: seq<T>, le: (T, T) -> bool): seq<T> {
    if sorted == [] || le(x, sorted[0]) then [x] + sorted
    else [sorted[0]] + Insert(x, sorted[1..], le)
  }

  /** An element goes before those it ties with, so ties keep their input order. */
  function Sort<T>(s: seq<T>, le: (T, T) -> bool): seq<T> {
    if s == [] then [] else Insert(s[0], Sort(s[1..], le), le)
  }

  ghost predicate AtMost<T>(x: T, s: seq<T>, le: (T, T) -> bool) {
    forall y | y in s :: le(x, y)
  }

  ghost predicate Sorted<T>(s: seq<T>, le: (T, T) -> bool) {
    s == [] || (AtMost(s[0], s[1..], le) && Sorted(s[1..], le))
  }

  lemma SortedCons<T>(x: T, s: seq<T>, le: (T, T) -> bool)
    requires Sorted(s, le) && AtMost(x, s, le)
    ensures Sorted([x] + s, le)
  {
    assert ([x] + s)[1..] == s;
  }

  lemma {:induction false} InsertKeeps<T(!new)>(x: T, sorted: seq<T>, le: (T, T) -> bool)
    requires TotalPreorder(le) && Sorted(sorted, le)
    ensures Sorted(Insert(x, sorted, le), le)
    ensures multiset(Insert(x, sorted, le)) == multiset{x} + multiset(sorted)
  {
    if sorted == [] {
      SortedCons(x, sorted, le);
    } else {
      var first, rest := sorted[0], sorted[1..];
      assert sorted == [first] + rest;
      if le(x, first) {
        assert forall y | y in sorted :: y == first || y in rest;
        SortedCons(x, sorted, le);
      } else {
        var tail := Insert(x, rest, le);
        InsertKeeps(x, rest, le);
        forall y | y in tail ensures le(first, y) {
          assert y in multiset(tail);
          assert y == x || y in multiset(rest);
        }
        SortedCons(first, tail, le);
      }
    }
  }

  lemma {:induction false} SortKeeps<T(!new)>(s: seq<T>, le: (T, T) -> bool)
    requires TotalPreorder(le)
    ensures Sorted(Sort(s, le), le)
    ensures multiset(Sort(s, le)) == multiset(s)
  {
    if s != [] {
      SortKeeps(s[1..], le);
      InsertKeeps(s[0], Sort(s[1..], le), le);
      assert s == [s[0]] + s[1..];
    }
  }

  /** A sorted sequence is left as it is. */
  lemma {:induction false} SortFixesSorted<T>(s: seq<T>, le: (T, T) -> bool)
    requires Sorted(s, le)
    ensures Sort(s, le) == s
  {
    if s != [] {
      SortFixesSorted(s[1..], le);
      assert s == [s[0]] + s[1..];
      assert s[1..] != [] ==> s[1..][0] in s[1..];
    }
  }

  /** `from` tells for each place of `t` where its element stands in `s`: every place once, in
      the order of `le`, and in the old order among elements that tie. */
  ghost predicate Stable<T(!new)>(s: seq<T>, t: seq<T>, from: seq<nat>, le: (T, T) -> bool) {
    && |from| == |t| == |s|
    && (forall k | 0 <= k < |t| :: from[k] < |s| && t[k] == s[from[k]])
    && (forall m | 0 <= m < |s| :: m in from)
    && (forall k, l | 0 <= k < l < |t| :: le(t[k], t[l]) && (le(t[l], t[k]) ==> from[k] < from[l]))
  }

  function Shifted(from: seq<nat>): seq<nat> {
    seq(|from|, k requires 0 <= k < |from| => from[k] + 1)
  }

  /** Where `Insert` puts its element. */
  lemma {:induction false} InsertPlace<T(!new)>(x: T, t: seq<T>, le: (T, T) -> bool) returns (i: nat)
    ensures i <= |t| && Insert(x, t, le) == t[..i] + [x] + t[i..]
    ensures forall k | 0 <= k < i :: !le(x, t[k])
    ensures i < |t| ==> le(x, t[i])
  {
    if t == [] || le(x, t[0]) {
      i := 0;
      assert t[..0] + [x] + t[0..] == [x] + t;
    } else {
      i := InsertPlace(x, t[1..], le);
      i := i + 1;
      assert t[..i] + [x] + t[i..] == [t[0]] + (t[1..][..i - 1] + [x] + t[1..][i - 1..]);
      assert forall k | 0 < k < i :: t[k] == t[1..][k - 1];
    }
  }

  lemma {:induction false} SortIsStable<T(!new)>(s: seq<T>, le: (T, T) -> bool) returns (from: seq<nat>)
    requires TotalPreorder(le)
    ensures Stable(s, Sort(s, le), from, le)
  {
    if s == [] {
      from := [];
    } else {
      var rest, t := s[1..], Sort(s[1..], le);
      var inner := SortIsStable(rest, le);
      var i := InsertPlace(s[0], t, le);
      from := Shifted(inner)[..i] + [0] + Shifted(inner)[i..];
      InsertIsStable(s, t, inner, i, le);
    }
  }

  lemma InsertIsStable<T(!new)>(s: seq<T>, t: seq<T>, inner: seq<nat>, i: nat, le: (T, T) -> bool)
    requires TotalPreorder(le) && s != [] && Stable(s[1..], t, inner, le)
    requires i <= |t| && (forall k | 0 <= k < i :: !le(s[0], t[k])) && (i < |t| ==> le(s[0], t[i]))
    ensures Stable(s, t[..i] + [s[0]] + t[i..], Shifted(inner)[..i] + [0] + Shifted(inner)[i..], le)
  {
    var longer, from := t[..i] + [s[0]] + t[i..], Shifted(inner)[..i] + [0] + Shifted(inner)[i..];
    forall k | 0 <= k < |longer| ensures from[k] < |s| && longer[k] == s[from[k]] {
      assert k < i ==> longer[k] == t[k] && from[k] == inner[k] + 1;
      assert k > i ==> longer[k] == t[k - 1] && from[k] == inner[k - 1] + 1;
    }
    forall m | 0 <= m < |s| ensures m in from {
      if m > 0 {
        assert m - 1 in inner;
        var k :| 0 <= k < |inner| && inner[k] == m - 1;
        assert from[if k < i then k else k + 1] == m;
      } else {
        assert from[i] == 0;
      }
    }
    forall k, l | 0 <= k < l < |longer|
      ensures le(longer[k], longer[l]) && (le(longer[l], longer[k]) ==> from[k] < from[l])
    {
      InsertedPair(s, t, inner, i, le, k, l);
    }
  }

  lemma InsertedPair<T(!new)>(s: seq<T>, t: seq<T>, inner: seq<nat>, i: nat, le: (T, T) -> bool, k: nat, l: nat)
    requires TotalPreorder(le) && s != [] && Stable(s[1..], t, inner, le)
    requires i <= |t| && (forall k | 0 <= k < i :: !le(s[0], t[k])) && (i < |t| ==> le(s[0], t[i]))
    requires k < l <= |t|
    ensures var longer, from := t[..i] + [s[0]] + t[i..], Shifted(inner)[..i] + [0] + Shifted(inner)[i..];
      le(longer[k], longer[l]) && (le(longer[l], longer[k]) ==> from[k] < from[l])
  {
    if k == i && l - 1 > i {
      assert le(t[i], t[l - 1]);
    }
  }
}
