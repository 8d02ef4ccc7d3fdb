/** The line table of `_SourceIndex` and its conversion of (line, UTF-8 column)
    positions into absolute offsets. */
module SourceIndex {
  import opened Outcomes
  import opened Sequences
  import opened Utf8

  const LF := '\n'
  const CR := '\r'

  predicate IsBreak(c: char) {
    c == LF || c == CR
  }

  /** Position of the first CR or LF of `s`, or `|s|`. */
  function FirstBreak(s: Text): (k: nat)
    ensures k <= |s|
    ensures k < |s| ==> IsBreak(s[k])
  {
    if s == [] || IsBreak(s[0]) then 0 else 1 + FirstBreak(s[1..])
  }

  ghost predicate BreakFree(s: Text) {
    forall j | 0 <= j < |s| :: !IsBreak(s[j])
  }

  lemma {:induction false} BeforeFirstBreak(s: Text)
    ensures BreakFree(s[..FirstBreak(s)])
  {
    if s != [] && !IsBreak(s[0]) {
      BeforeFirstBreak(s[1..]);
      assert s[..FirstBreak(s)] == [s[0]] + s[1..][..FirstBreak(s[1..])];
    }
  }

  /** How many characters the terminator at the front of `s` takes: CRLF first. */
  function BreakWidth(s: Text): (w: nat)
    requires s != [] && IsBreak(s[0])
    ensures 1 <= w <= |s| && w <= 2
  {
    if |s| >= 2 && s[0] == CR && s[1] == LF then 2 else 1
  }

  // ----- Lines -----

  datatype Line = Line(body: Text, terminator: Text) {
    function Whole(): Text { body + terminator }
  }

  /** The first line of a text that has a terminator, and the text behind it. */
  function Cut(s: Text): (c: (Line, Text))
    requires FirstBreak(s) < |s|
    ensures |c.1| < |s|
  {
    var k := FirstBreak(s);
    var w := BreakWidth(s[k..]);
    (Line(s[..k], s[k..k + w]), s[k + w..])
  }

  /** What Python's tokenizer sees as lines; the last one has no terminator. */
  function Lines(s: Text): (ls: seq<Line>)
    ensures |ls| >= 1
    decreases |s|
  {
    if FirstBreak(s) == |s| then [Line(s, [])]
    else
      var (l, rest) := Cut(s);
      [l] + Lines(rest)
  }

  lemma LinesOfCut(s: Text)
    requires FirstBreak(s) < |s|
    ensures Lines(s) == [Cut(s).0] + Lines(Cut(s).1)
  {
    hide FirstBreak, Cut;
  }

  function JoinLines(ls: seq<Line>): Text {
    if ls == [] then [] else ls[0].Whole() + JoinLines(ls[1..])
  }

  function Bodies(ls: seq<Line>): seq<Text> {
    seq(|ls|, i requires 0 <= i < |ls| => ls[i].body)
  }

  /** A well-formed split: no terminator character inside a body, one terminator
      per line except the last, and no CRLF cut in two. */
  ghost predicate WellFormed(ls: seq<Line>) {
    && |ls| >= 1
    && (forall i | 0 <= i < |ls| :: BreakFree(ls[i].body))
    && (forall i | 0 <= i < |ls| - 1 :: IsTerminator(ls[i].terminator))
    && ls[|ls| - 1].terminator == []
    && (forall i | 0 <= i < |ls| - 1 && ls[i].terminator == [CR] :: !StartsWithLf(ls[i + 1]))
  }

  predicate IsTerminator(t: Text) {
    t == [CR, LF] || t == [CR] || t == [LF]
  }

  predicate StartsWithLf(l: Line) {
    l.Whole() != [] && l.Whole()[0] == LF
  }

  /** `s` up to its first terminator, that terminator, and the rest. */
  lemma LinesHead(s: Text) returns (l: Line, rest: Text)
    requires FirstBreak(s) < |s|
    ensures |rest| < |s| && s == l.Whole() + rest && Lines(s) == [l] + Lines(rest)
    ensures BreakFree(l.body) && IsTerminator(l.terminator)
    ensures l.terminator == [CR] && rest != [] ==> rest[0] != LF
  {
    LinesOfCut(s);
    BeforeFirstBreak(s);
    hide Lines, FirstBreak, BreakFree;
    var k := FirstBreak(s);
    var tail := s[k..];
    var w := BreakWidth(tail);
    TerminatorShape(tail);
    l, rest := Line(s[..k], s[k..k + w]), s[k + w..];
    assert l.terminator == tail[..w] && rest == tail[w..];
  }

  lemma {:induction false} LinesWellFormed(s: Text)
    ensures WellFormed(Lines(s)) && JoinLines(Lines(s)) == s
    decreases |s|
  {
    if FirstBreak(s) == |s| {
      LastIsWellFormed(s);
    } else {
      var l, rest := LinesHead(s);
      LinesWellFormed(rest);
      JoinFront(Lines(rest));
      WellFormedCons(l, Lines(rest));
    }
  }

  lemma LastIsWellFormed(s: Text)
    requires FirstBreak(s) == |s|
    ensures WellFormed([Line(s, [])]) && JoinLines([Line(s, [])]) == s
  {
    BeforeFirstBreak(s);
    assert s[..|s|] == s;
    assert JoinLines([Line(s, [])]) == (s + []) + JoinLines([]);
  }

  lemma WellFormedCons(l: Line, rest: seq<Line>)
    requires WellFormed(rest)
    requires BreakFree(l.body)
    requires IsTerminator(l.terminator)
    requires l.terminator == [CR] ==> !StartsWithLf(rest[0])
    ensures WellFormed([l] + rest) && JoinLines([l] + rest) == l.Whole() + JoinLines(rest)
  {
    var ls := [l] + rest;
    assert ls[1..] == rest;
    assert forall i | 0 < i < |ls| :: ls[i] == rest[i - 1];
  }

  /** A joined split starts with what its first line starts with. */
  lemma JoinFront(ls: seq<Line>)
    requires |ls| >= 1
    ensures ls[0].Whole() <= JoinLines(ls)
  {
  }

  lemma TerminatorShape(s: Text)
    requires s != [] && IsBreak(s[0])
    ensures IsTerminator(s[..BreakWidth(s)])
  {
    assert s[..1] == [s[0]];
    assert |s| >= 2 ==> s[..2] == [s[0], s[1]];
  }

  lemma {:induction false} FirstBreakAt(body: Text, tail: Text)
    requires BreakFree(body)
    requires tail != [] ==> IsBreak(tail[0])
    ensures FirstBreak(body + tail) == |body|
  {
    if body == [] {
      assert body + tail == tail;
    } else {
      FirstBreakAt(body[1..], tail);
      assert (body + tail)[1..] == body[1..] + tail;
    }
  }

  lemma LinesCons(body: Text, t: Text, rest: Text)
    requires BreakFree(body)
    requires IsTerminator(t)
    requires t == [CR] && rest != [] ==> rest[0] != LF
    ensures Lines(body + (t + rest)) == [Line(body, t)] + Lines(rest)
  {
    hide FirstBreak, Lines;
    var tail := t + rest;
    var s := body + tail;
    FirstBreakAt(body, tail);
    LinesOfCut(s);
    assert s[|body|..] == tail && s[..|body|] == body;
    assert BreakWidth(tail) == |t|;
    assert s[|body| + |t|..] == rest && s[|body|..|body| + |t|] == t;
  }

  lemma FrontNotLf(ls: seq<Line>)
    requires WellFormed(ls) && !StartsWithLf(ls[0])
    ensures JoinLines(ls) != [] ==> JoinLines(ls)[0] != LF
  {
    if ls[0].Whole() == [] {
      assert ls[0].terminator == [];
      assert |ls| == 1;
      assert JoinLines(ls[1..]) == [];
    }
  }

  /** The well-formed split of a text is unique, so `Lines` computes it. */
  lemma {:induction false} LinesUnique(ls: seq<Line>)
    requires WellFormed(ls)
    ensures Lines(JoinLines(ls)) == ls
    decreases |ls|
  {
    var body, t := ls[0].body, ls[0].terminator;
    var rest := ls[1..];
    if |ls| == 1 {
      assert JoinLines(ls) == body + [];
      FirstBreakAt(body, []);
    } else {
      assert forall i | 0 <= i < |rest| :: rest[i] == ls[i + 1];
      LinesUnique(rest);
      if t == [CR] {
        FrontNotLf(rest);
      }
      LinesCons(body, t, JoinLines(rest));
      AppendAssociates(body, t, JoinLines(rest));
    }
  }

  // ----- The index -----

  /** Absolute offset of the start of line `k` (zero-based). */
  function LineStart(ls: seq<Line>, k: nat): nat
    requires k <= |ls|
  {
    if k == 0 then 0 else LineStart(ls, k - 1) + |ls[k - 1].Whole()|
  }

  ghost predicate StartsMatch(ls: seq<Line>, starts: seq<int>) {
    && |starts| <= |ls|
    && forall k {:trigger starts[k]} | 0 <= k < |starts| :: starts[k] == LineStart(ls, k)
  }

  ghost predicate EndsMatch(ls: seq<Line>, ends: seq<int>) {
    && |ends| <= |ls|
    && forall k {:trigger ends[k]} | 0 <= k < |ends| :: ends[k] == LineStart(ls, k) + |ls[k].body|
  }

  /** `len(line.encode("utf-8")[:column].decode("utf-8"))`, or `None` when the cut
      does not decode. */
  function Advance(line: Text, column: nat): Option<nat> {
    var bytes := Encode(line);
    match Decode(bytes[..if column <= |bytes| then column else |bytes|])
    case None => None
    case Some(prefix) => Some(|prefix|)
  }

  datatype Index = Index(source: Text, starts: seq<int>, ends: seq<int>) {

    ghost predicate Valid() {
      var ls := Lines(source);
      |starts| == |ends| == |ls| && StartsMatch(ls, starts) && EndsMatch(ls, ends)
    }

    /** `_SourceIndex.offset`: `None` for a line out of range and for a column
        inside a character; a column past the end is clamped by the slice. */
    function Offset(lineno: int, column: nat): Option<nat>
      requires Valid()
    {
      if lineno < 1 || lineno > |starts| then None
      else
        LineSlice(this, lineno - 1);
        var start := starts[lineno - 1];
        match Advance(source[start..ends[lineno - 1]], column)
        case None => None
        case Some(k) => Some(start + k)
    }
  }

  /** The index of a source: the only valid one. */
  function IndexOf(source: Text): (index: Index)
    ensures index.Valid() && index.source == source
  {
    var ls := Lines(source);
    Index(source,
          seq(|ls|, k requires 0 <= k < |ls| => LineStart(ls, k)),
          seq(|ls|, k requires 0 <= k < |ls| => LineStart(ls, k) + |ls[k].body|))
  }

  lemma ValidIndexUnique(index: Index)
    requires index.Valid()
    ensures index == IndexOf(index.source)
  {
    hide Lines, LineStart;
    var other := IndexOf(index.source);
    assert index.starts == other.starts && index.ends == other.ends;
  }

  /** `_SourceIndex.__init__`: collect the bounds of every terminator match. */
  method BuildIndex(source: Text) returns (index: Index)
    ensures index == IndexOf(source)
  {
    hide Lines, FirstBreak;
    var starts: seq<int>, ends: seq<int> := [0], [];
    var pos := 0;
    ghost var ls := Lines(source);
    while pos + FirstBreak(source[pos..]) < |source|
      invariant pos <= |source|
      invariant |starts| == |ends| + 1
      invariant StartsMatch(ls, starts) && EndsMatch(ls, ends)
      invariant ls[|ends|..] == Lines(source[pos..])
      invariant pos == LineStart(ls, |ends|)
      decreases |source| - pos
    {
      var first := pos + FirstBreak(source[pos..]);
      var after := first + BreakWidth(source[first..]);
      NextLine(source, pos, ls, |ends|, first, after);
      ExtendTable(ls, starts, ends, first, after);
      ends := ends + [first];
      starts := starts + [after];
      pos := after;
    }
    LastLine(source, pos, ls, |ends|);
    ExtendEnds(ls, ends, |source|);
    index := Index(source, starts, ends + [|source|]);
    ValidIndexUnique(index);
  }

  lemma ExtendTable(ls: seq<Line>, starts: seq<int>, ends: seq<int>, first: int, after: int)
    requires StartsMatch(ls, starts) && EndsMatch(ls, ends)
    requires |starts| == |ends| + 1 < |ls|
    requires first == LineStart(ls, |ends|) + |ls[|ends|].body| && after == LineStart(ls, |starts|)
    ensures StartsMatch(ls, starts + [after]) && EndsMatch(ls, ends + [first])
  {
    ExtendEnds(ls, ends, first);
  }

  lemma ExtendEnds(ls: seq<Line>, ends: seq<int>, end: int)
    requires EndsMatch(ls, ends) && |ends| < |ls|
    requires end == LineStart(ls, |ends|) + |ls[|ends|].body|
    ensures EndsMatch(ls, ends + [end])
  {
  }

  /** One iteration of `finditer`: the first break of what is left ends line `n`. */
  lemma NextLine(source: Text, pos: nat, ls: seq<Line>, n: nat, first: nat, after: nat)
    requires pos <= |source| && n < |ls| && ls[n..] == Lines(source[pos..])
    requires first == pos + FirstBreak(source[pos..]) < |source|
    requires after == first + BreakWidth(source[first..])
    ensures n + 1 < |ls| && ls[n + 1..] == Lines(source[after..])
    ensures |ls[n].body| == first - pos
    ensures LineStart(ls, n + 1) == LineStart(ls, n) + (after - pos)
  {
    hide *;
    var s := source[pos..];
    LinesOfCut(s);
    CutInSource(source, pos, first);
    SplitFront(ls, n, Cut(s).0, Lines(Cut(s).1));
    NextLineStart(ls, n);
  }

  lemma NextLineStart(ls: seq<Line>, n: nat)
    requires n < |ls|
    ensures LineStart(ls, n + 1) == LineStart(ls, n) + |ls[n].Whole()|
  {
  }

  /** The cut at `pos`, in positions of the whole source. */
  lemma CutInSource(source: Text, pos: nat, first: nat)
    requires pos <= |source| && first == pos + FirstBreak(source[pos..]) < |source|
    ensures var c := Cut(source[pos..]);
            var after := first + BreakWidth(source[first..]);
            c.1 == source[after..] && |c.0.body| == first - pos && |c.0.Whole()| == after - pos
  {
    hide FirstBreak;
    var s := source[pos..];
    assert s[first - pos..] == source[first..];
    hide BreakWidth;
    var w := BreakWidth(source[first..]);
    assert s[first - pos + w..] == source[first + w..];
  }

  lemma SplitFront(ls: seq<Line>, n: nat, l: Line, rest: seq<Line>)
    requires n < |ls| && ls[n..] == [l] + rest
    ensures ls[n] == l && ls[n + 1..] == rest
  {
    assert ls[n] == ls[n..][0];
    assert ls[n + 1..] == ls[n..][1..];
  }

  lemma LastLine(source: Text, pos: nat, ls: seq<Line>, n: nat)
    requires pos <= |source| && n < |ls| && ls[n..] == Lines(source[pos..])
    requires pos + FirstBreak(source[pos..]) == |source|
    ensures n + 1 == |ls| && ls[n].body == source[pos..]
  {
    SplitFront(ls, n, Line(source[pos..], []), []);
  }

  /** Every line body sits in the source between its start and its end. */
  lemma LineSlice(index: Index, k: nat)
    requires index.Valid() && k < |index.starts|
    ensures 0 <= index.starts[k] <= index.ends[k] <= |index.source|
    ensures index.source[index.starts[k]..index.ends[k]] == Lines(index.source)[k].body
    ensures k + 1 < |index.starts| ==> index.ends[k] < index.starts[k + 1]
  {
    hide Lines;
    var ls := Lines(index.source);
    LinesWellFormed(index.source);
    JoinSlice(ls, k);
    if k + 1 < |ls| {
      NextStart(ls, k);
    }
  }

  lemma NextStart(ls: seq<Line>, k: nat)
    requires WellFormed(ls) && k + 1 < |ls|
    ensures LineStart(ls, k) + |ls[k].body| < LineStart(ls, k + 1)
  {
    assert IsTerminator(ls[k].terminator);
    assert |ls[k].Whole()| == |ls[k].body| + |ls[k].terminator|;
  }

  lemma {:induction false} JoinSlice(ls: seq<Line>, k: nat)
    requires k < |ls|
    ensures LineStart(ls, k) + |ls[k].body| <= |JoinLines(ls)|
    ensures JoinLines(ls)[LineStart(ls, k)..LineStart(ls, k) + |ls[k].body|] == ls[k].body
  {
    if k > 0 {
      JoinSlice(ls[1..], k - 1);
      LineStartShift(ls, k);
      SliceShift(ls[0].Whole(), JoinLines(ls[1..]), LineStart(ls[1..], k - 1), |ls[k].body|);
    } else {
      AppendAssociates(ls[0].body, ls[0].terminator, JoinLines(ls[1..]));
    }
  }

  lemma SliceShift(a: Text, b: Text, at: nat, n: nat)
    requires at + n <= |b|
    ensures (a + b)[|a| + at..|a| + at + n] == b[at..at + n]
  {
  }

  lemma {:induction false} LineStartShift(ls: seq<Line>, k: nat)
    requires 0 < k <= |ls|
    ensures LineStart(ls, k) == |ls[0].Whole()| + LineStart(ls[1..], k - 1)
  {
    if k > 1 {
      LineStartShift(ls, k - 1);
    } else {
      assert LineStart(ls, 0) == 0;
    }
  }

  // ----- What offsets mean -----

  /** The number of bytes before character `k` of a line. */
  function Column(body: Text, k: nat): nat
    requires k <= |body|
  {
    |Encode(body[..k])|
  }

  lemma ColumnSplit(body: Text, k: nat, n: nat)
    requires k <= n <= |body|
    ensures Column(body, k) <= Column(body, n) <= |Encode(body)|
    ensures k < n ==> Column(body, k) < Column(body, n)
    ensures Encode(body)[..Column(body, k)] == Encode(body[..k])
  {
    hide Encode;
    assert body[..n] == body[..k] + body[k..n];
    EncodeConcat(body[..k], body[k..n]);
    EncodeNonEmpty(body[k..n]);
    assert body == body[..n] + body[n..];
    EncodeConcat(body[..n], body[n..]);
  }

  lemma AdvanceAtBoundary(body: Text, k: nat)
    requires k <= |body|
    ensures Advance(body, Column(body, k)) == Some(k)
  {
    ColumnSplit(body, k, k);
    DecodeEncode(body[..k]);
  }

  lemma AdvanceInverse(body: Text, column: nat)
    requires Advance(body, column).Some?
    ensures
      var k := Advance(body, column).value;
      k <= |body| && Column(body, k) == if column <= |Encode(body)| then column else |Encode(body)|
  {
    var bytes := Encode(body);
    var cut := bytes[..if column <= |bytes| then column else |bytes|];
    var prefix := Decode(cut).value;
    EncodeDecode(cut);
    EncodePrefix(prefix, body);
    assert body[..|prefix|] == prefix;
  }

  lemma AdvanceClamps(body: Text, column: nat)
    requires column >= |Encode(body)|
    ensures Advance(body, column) == Some(|body|)
  {
    DecodeEncode(body);
    assert Encode(body)[..|Encode(body)|] == Encode(body);
  }

  /** On a character boundary the offset is that character's position. */
  lemma OffsetAtBoundary(index: Index, l: nat, k: nat)
    requires index.Valid() && l < |index.starts| && k <= |Lines(index.source)[l].body|
    ensures index.Offset(l + 1, Column(Lines(index.source)[l].body, k)) == Some(index.starts[l] + k)
  {
    hide Lines, Advance, LineStart;
    LineSlice(index, l);
    AdvanceAtBoundary(Lines(index.source)[l].body, k);
  }

  /** An offset that exists lies in its line, and measuring its column again gives
      back the column it came from (or the end of the line, when that was passed). */
  lemma OffsetInverse(index: Index, l: nat, column: nat)
    requires index.Valid() && l < |index.starts|
    requires index.Offset(l + 1, column).Some?
    ensures
      var body := Lines(index.source)[l].body;
      var o := index.Offset(l + 1, column).value;
      && index.starts[l] <= o <= index.ends[l]
      && Column(body, o - index.starts[l]) == if column <= |Encode(body)| then column else |Encode(body)|
  {
    hide Lines, Advance, LineStart;
    LineSlice(index, l);
    AdvanceInverse(Lines(index.source)[l].body, column);
  }

  /** On an existing line, `None` means exactly that the column cuts a character. */
  lemma OffsetNoneIffCut(index: Index, l: nat, column: nat)
    requires index.Valid() && l < |index.starts|
    ensures
      var body := Lines(index.source)[l].body;
      index.Offset(l + 1, column).None? <==>
      column < |Encode(body)| && forall k | 0 <= k <= |body| :: Column(body, k) != column
  {
    LineSlice(index, l);
    var body := Lines(index.source)[l].body;
    if Advance(body, column).Some? {
      AdvanceInverse(body, column);
    } else {
      forall k | 0 <= k <= |body| ensures Column(body, k) != column {
        AdvanceAtBoundary(body, k);
      }
      if column >= |Encode(body)| {
        AdvanceClamps(body, column);
      }
    }
  }

  /** Past the end of a line the offset is the end of that line, never its
      terminator. */
  lemma OffsetClamps(index: Index, l: nat, column: nat)
    requires index.Valid() && l < |index.starts|
    requires column >= |Encode(Lines(index.source)[l].body)|
    ensures index.Offset(l + 1, column) == Some(index.ends[l])
  {
    hide Lines, Advance, LineStart;
    LineSlice(index, l);
    AdvanceClamps(Lines(index.source)[l].body, column);
  }

  /** Offsets follow (line, column) order; a later line is strictly later. */
  lemma OffsetMonotone(index: Index, l1: nat, c1: nat, l2: nat, c2: nat)
    requires index.Valid() && l1 <= l2 < |index.starts|
    requires index.Offset(l1 + 1, c1).Some? && index.Offset(l2 + 1, c2).Some?
    ensures l1 == l2 && c1 <= c2 ==> index.Offset(l1 + 1, c1).value <= index.Offset(l2 + 1, c2).value
    ensures l1 < l2 ==> index.Offset(l1 + 1, c1).value < index.Offset(l2 + 1, c2).value
  {
    hide Lines, Advance, LineStart;
    OffsetInverse(index, l1, c1);
    OffsetInverse(index, l2, c2);
    if l1 < l2 {
      LinesInOrder(index, l1, l2);
    } else if c1 <= c2 {
      LineSlice(index, l1);
      var k1 := index.Offset(l1 + 1, c1).value - index.starts[l1];
      var k2 := index.Offset(l2 + 1, c2).value - index.starts[l2];
      if k2 < k1 {
        ColumnSplit(Lines(index.source)[l1].body, k2, k1);
      }
    }
  }

  lemma {:induction false} LinesInOrder(index: Index, l1: nat, l2: nat)
    requires index.Valid() && l1 < l2 < |index.starts|
    ensures index.ends[l1] < index.starts[l2]
  {
    LineSlice(index, l2 - 1);
    if l1 < l2 - 1 {
      LinesInOrder(index, l1, l2 - 1);
    }
  }
}
