/** `str.replace` and `bytes.replace`: leftmost, non-overlapping. */
module Replacing {

  function Replace<T(==)>(s: seq<T>, pattern: seq<T>, to: seq<T>): seq<T>
    requires pattern != []
    decreases |s|
  {
    if s == [] then []
    else if pattern <= s then to + Replace(s[|pattern|..], pattern, to)
    else [s[0]] + Replace(s[1..], pattern, to)
  }

  lemma ReplaceEmpty<T>(pattern: seq<T>, to: seq<T>)
    requires pattern != []
    ensures Replace([], pattern, to) == []
  {
  }

  lemma PrefixOne<T>(s: seq<T>, x: T)
    ensures [x] <= s <==> s != [] && s[0] == x
  {
    assert s != [] ==> s[..1] == [s[0]];
  }

  lemma ReplaceOne<T>(s: seq<T>, x: T, to: seq<T>)
    requires s != []
    ensures Replace(s, [x], to) == (if s[0] == x then to else [s[0]]) + Replace(s[1..], [x], to)
  {
    PrefixOne(s, x);
  }

  /** A one-element pattern is replaced element by element. */
  lemma {:induction false} ReplaceSingleConcat<T>(s: seq<T>, t: seq<T>, x: T, to: seq<T>)
    ensures Replace(s + t, [x], to) == Replace(s, [x], to) + Replace(t, [x], to)
  {
    hide Replace;
    if s == [] {
      ReplaceEmpty([x], to);
      assert s + t == t;
    } else {
      ReplaceSingleConcat(s[1..], t, x, to);
      ReplaceOne(s, x, to);
      ReplaceOne(s + t, x, to);
      assert (s + t)[1..] == s[1..] + t;
    }
  }

  /** Replacing an element that does not occur changes nothing. */
  lemma {:induction false} ReplaceAbsent<T>(s: seq<T>, x: T, to: seq<T>)
    requires x !in s
    ensures Replace(s, [x], to) == s
  {
    if s != [] {
      ReplaceAbsent(s[1..], x, to);
      PrefixOne(s, x);
      assert s == [s[0]] + s[1..];
    }
  }
}
