/** `_provisional_line_endings`: the two-pass normalisation of a worktree
    comparison, and what it keeps. */
module LineEndings {
  import opened Outcomes
  import opened Sequences
  import opened Utf8
  import opened SourceIndex
  import opened Replacing

  const CrByte: Byte := 13
  const LfByte: Byte := 10

  /** The source's two replacements, in its order. */
  function ProvisionalLineEndings(data: Bytes): Bytes {
    Replace(Replace(data, [CrByte, LfByte], [LfByte]), [CrByte], [LfByte])
  }

  /** The reference: one left-to-right pass that takes CRLF, CR or LF as one break. */
  function Normalise<T(==)>(s: seq<T>, cr: T, lf: T): seq<T>
    decreases |s|
  {
    if s == [] then []
    else if s[0] == cr then [lf] + Normalise(if |s| > 1 && s[1] == lf then s[2..] else s[1..], cr, lf)
    else [s[0]] + Normalise(s[1..], cr, lf)
  }

  function NormaliseBytes(data: Bytes): Bytes {
    Normalise(data, CrByte, LfByte)
  }

  function NormaliseText(t: Text): Text {
    Normalise(t, CR, LF)
  }

  // ----- Two passes are one -----

  /** Two passes equal one, also where pass one creates a new CRLF (CR CR LF). */
  lemma {:induction false} TwoPassesAreOne(data: Bytes)
    ensures ProvisionalLineEndings(data) == NormaliseBytes(data)
    decreases |data|
  {
    var crlf := [CrByte, LfByte];
    if data == [] {
    } else if crlf <= data {
      assert data[0] == CrByte && data[1] == LfByte;
      TwoPassesAreOne(data[2..]);
      SecondPassStep(LfByte, Replace(data[2..], crlf, [LfByte]));
    } else {
      assert |data| > 1 ==> data[..2] == [data[0], data[1]];
      TwoPassesAreOne(data[1..]);
      SecondPassStep(data[0], Replace(data[1..], crlf, [LfByte]));
    }
  }

  lemma SecondPassStep(b: Byte, rest: Bytes)
    ensures Replace([b] + rest, [CrByte], [LfByte])
         == [if b == CrByte then LfByte else b] + Replace(rest, [CrByte], [LfByte])
  {
    ReplaceSingleConcat([b], rest, CrByte, [LfByte]);
    PrefixOne([b], CrByte);
    assert [b][1..] == [];
  }

  // ----- No CR is left, and a second run changes nothing -----

  lemma {:induction false} NormaliseLeavesNoCr<T>(s: seq<T>, cr: T, lf: T)
    requires cr != lf
    ensures cr !in Normalise(s, cr, lf)
    decreases |s|
  {
    if s != [] {
      NormaliseLeavesNoCr(if s[0] == cr && |s| > 1 && s[1] == lf then s[2..] else s[1..], cr, lf);
    }
  }

  lemma {:induction false} NormaliseWithoutCr<T>(s: seq<T>, cr: T, lf: T)
    requires cr !in s
    ensures Normalise(s, cr, lf) == s
  {
    if s != [] {
      assert s[0] != cr;
      NormaliseWithoutCr(s[1..], cr, lf);
    }
  }

  lemma ProvisionalIdempotent(data: Bytes)
    ensures CrByte !in ProvisionalLineEndings(data)
    ensures ProvisionalLineEndings(ProvisionalLineEndings(data)) == ProvisionalLineEndings(data)
  {
    TwoPassesAreOne(data);
    TwoPassesAreOne(NormaliseBytes(data));
    NormaliseLeavesNoCr(data, CrByte, LfByte);
    NormaliseWithoutCr(NormaliseBytes(data), CrByte, LfByte);
  }

  // ----- Bytes and text -----

  /** A run without CR passes through unchanged. */
  lemma {:induction false} NormaliseRun<T>(run: seq<T>, rest: seq<T>, cr: T, lf: T)
    requires cr !in run
    ensures Normalise(run + rest, cr, lf) == run + Normalise(rest, cr, lf)
  {
    if run == [] {
      assert run + rest == rest;
    } else {
      assert run[0] != cr;
      NormaliseRun(run[1..], rest, cr, lf);
      assert (run + rest)[1..] == run[1..] + rest;
    }
  }

  /** In UTF-8 the bytes 13 and 10 stand for CR and LF only. */
  lemma BreakBytes(c: char)
    ensures c == CR ==> EncodeScalar(c) == [CrByte]
    ensures c == LF ==> EncodeScalar(c) == [LfByte]
    ensures c != CR ==> CrByte !in EncodeScalar(c)
    ensures c != LF ==> EncodeScalar(c)[0] != LfByte
  {
  }

  /** Normalising the bytes normalises the text. */
  lemma {:induction false} NormaliseEncoded(t: Text)
    ensures NormaliseBytes(Encode(t)) == Encode(NormaliseText(t))
    decreases |t|
  {
    hide EncodeScalar;
    if t != [] {
      BreakBytes(t[0]);
      BreakBytes(LF);
      if t[0] != CR {
        NormaliseEncoded(t[1..]);
        NormaliseRun(EncodeScalar(t[0]), Encode(t[1..]), CrByte, LfByte);
      } else if |t| == 1 {
        assert t == [CR];
        LoneCr();
      } else {
        BreakBytes(t[1]);
        var rest := Encode(t[1..]);
        assert Encode(t) == [CrByte] + rest;
        assert rest == EncodeScalar(t[1]) + Encode(t[1..][1..]);
        assert t[1..][1..] == t[2..];
        if t[1] == LF {
          NormaliseEncoded(t[2..]);
          assert Encode(t)[2..] == Encode(t[2..]);
          EncodeCons(LF, NormaliseText(t[2..]));
        } else {
          NormaliseEncoded(t[1..]);
          assert Encode(t)[1..] == rest && Encode(t)[1] != LfByte;
          EncodeCons(LF, NormaliseText(t[1..]));
        }
      }
    }
  }

  lemma LoneCr()
    ensures NormaliseBytes(Encode([CR])) == Encode(NormaliseText([CR]))
  {
    assert [CR][1..] == [] && [LF][1..] == [] && [CrByte][1..] == [];
    assert Normalise([CR], CR, LF) == [LF] + Normalise([CR][1..], CR, LF);
    assert Encode([CR]) == [CrByte] && Encode([LF]) == [LfByte];
    assert Normalise([CrByte], CrByte, LfByte) == [LfByte] + Normalise([CrByte][1..], CrByte, LfByte);
  }

  lemma EncodeCons(c: char, t: Text)
    ensures Encode([c] + t) == EncodeScalar(c) + Encode(t)
  {
    assert ([c] + t)[1..] == t;
  }

  /** As long as the output shows no LF it is a copy of the input. */
  lemma {:induction false} CopiedPrefix(data: Bytes, n: nat)
    requires n <= |NormaliseBytes(data)| && LfByte !in NormaliseBytes(data)[..n]
    ensures n <= |data| && data[..n] == NormaliseBytes(data)[..n]
    decreases n
  {
    if n > 0 {
      var out := NormaliseBytes(data);
      assert out[0] in out[..n];
      assert data != [] && out == [data[0]] + NormaliseBytes(data[1..]);
      assert out[..n][1..] == NormaliseBytes(data[1..])[..n - 1];
      CopiedPrefix(data[1..], n - 1);
      assert data[..n] == [data[0]] + data[1..][..n - 1];
    }
  }

  /** A front character of more than one byte has no byte below 0x80. */
  lemma LongFront(data: Bytes)
    ensures FrontLength(data) > 1 ==> forall i | 0 <= i < FrontLength(data) :: data[i] >= 0x80
    ensures FrontLength(data) == 1 <==> data != [] && data[0] < 0x80
  {
  }

  /** Normalisation neither makes undecodable bytes decodable nor the reverse. */
  lemma {:induction false} NormaliseDecodes(data: Bytes)
    ensures Decode(NormaliseBytes(data)).Some? ==> Decode(data).Some?
    decreases |data|
  {
    hide FrontScalar;
    var out := NormaliseBytes(data);
    LongFront(data);
    LongFront(out);
    if data == [] || Decode(out).None? {
    } else if data[0] == CrByte {
      var rest := if |data| > 1 && data[1] == LfByte then data[2..] else data[1..];
      assert out == [LfByte] + NormaliseBytes(rest) && out[1..] == NormaliseBytes(rest);
      NormaliseDecodes(rest);
      if |data| > 1 && data[1] == LfByte {
        LongFront(data[1..]);
        assert data[1..][1..] == data[2..];
      }
    } else {
      var n := FrontLength(out);
      assert n > 0 && out[0] == data[0];
      if n == 1 {
        assert out[1..] == NormaliseBytes(data[1..]);
        NormaliseDecodes(data[1..]);
      } else {
        assert forall b | b in out[..n] :: b >= 0x80;
        CopiedPrefix(data, n);
        assert forall i | 0 <= i < n :: data[i] == data[..n][i] == out[..n][i] == out[i];
        SameFront(data, out, n);
        assert CrByte !in data[..n];
        NormaliseRun(data[..n], data[n..], CrByte, LfByte);
        assert data == data[..n] + data[n..];
        assert out[n..] == NormaliseBytes(data[n..]);
        NormaliseDecodes(data[n..]);
      }
    }
  }

  lemma SameFront(a: Bytes, b: Bytes, n: nat)
    requires n == FrontLength(b) > 0 && n <= |a|
    requires forall i | 0 <= i < n :: a[i] == b[i]
    ensures FrontLength(a) == n
  {
  }

  /** What the classifier sees after provisional normalisation: the same decodability,
      and the normalised text. */
  lemma ProvisionalDecode(data: Bytes)
    ensures Decode(ProvisionalLineEndings(data)) ==
            match Decode(data) case None => None case Some(t) => Some(NormaliseText(t))
  {
    TwoPassesAreOne(data);
    if Decode(data).Some? {
      var t := Decode(data).value;
      EncodeDecode(data);
      NormaliseEncoded(t);
      DecodeEncode(NormaliseText(t));
    } else {
      NormaliseDecodes(data);
    }
  }

  // ----- Lines are kept -----

  /** Every terminator of a split turned into LF. */
  function WithLf(ls: seq<Line>): seq<Line> {
    if ls == [] then []
    else [Line(ls[0].body, if ls[0].terminator == [] then [] else [LF])] + WithLf(ls[1..])
  }

  lemma {:induction false} WithLfAt(ls: seq<Line>)
    ensures |WithLf(ls)| == |ls|
    ensures forall i {:trigger WithLf(ls)[i]} | 0 <= i < |ls| ::
              WithLf(ls)[i] == Line(ls[i].body, if ls[i].terminator == [] then [] else [LF])
  {
    if ls != [] {
      WithLfAt(ls[1..]);
    }
  }

  /** The normalised text is the old lines with LF endings. */
  lemma {:induction false} NormaliseJoins(s: Text)
    ensures NormaliseText(s) == JoinLines(WithLf(Lines(s)))
    decreases |s|
  {
    if FirstBreak(s) == |s| {
      BeforeFirstBreak(s);
      assert s[..|s|] == s;
      NormaliseWithoutCr(s, CR, LF);
      LastIsWellFormed(s);
      WithLfLast(s);
    } else {
      hide FirstBreak, Lines;
      var l, rest := LinesHead(s);
      NormaliseJoins(rest);
      JoinHead(l, rest, Lines(rest));
    }
  }

  lemma WithLfLast(s: Text)
    ensures WithLf([Line(s, [])]) == [Line(s, [])]
  {
    assert WithLf([Line(s, [])][1..]) == [];
  }

  lemma JoinHead(l: Line, rest: Text, ls: seq<Line>)
    requires BreakFree(l.body) && IsTerminator(l.terminator)
    requires l.terminator == [CR] && rest != [] ==> rest[0] != LF
    requires NormaliseText(rest) == JoinLines(WithLf(ls))
    ensures NormaliseText(l.Whole() + rest) == JoinLines(WithLf([l] + ls))
  {
    hide Normalise;
    assert CR !in l.body;
    NormaliseRun(l.body, l.terminator + rest, CR, LF);
    AppendAssociates(l.body, l.terminator, rest);
    NormaliseBreak(l.terminator, rest);
    assert ([l] + ls)[1..] == ls;
    var head := Line(l.body, [LF]);
    assert WithLf([l] + ls) == [head] + WithLf(ls);
    assert ([head] + WithLf(ls))[1..] == WithLf(ls);
    AppendAssociates(l.body, [LF], JoinLines(WithLf(ls)));
  }

  lemma NormaliseBreak(t: Text, rest: Text)
    requires IsTerminator(t) && (t == [CR] && rest != [] ==> rest[0] != LF)
    ensures NormaliseText(t + rest) == [LF] + NormaliseText(rest)
  {
    var s := t + rest;
    assert s[|t|..] == rest;
    if t == [CR] && rest != [] {
      assert s[1] == rest[0];
    }
  }

  /** `_LINE_TERMINATOR` finds the same line bodies before and after. */
  lemma NormaliseKeepsLines(s: Text)
    ensures Lines(NormaliseText(s)) == WithLf(Lines(s))
    ensures Bodies(Lines(NormaliseText(s))) == Bodies(Lines(s))
  {
    hide Lines, NormaliseText, WithLf;
    var ls := Lines(s);
    var lf := WithLf(ls);
    NormaliseJoins(s);
    LinesWellFormed(s);
    WithLfAt(ls);
    assert WellFormed(lf) by {
      forall i | 0 <= i < |lf| ensures BreakFree(lf[i].body) {
        assert BreakFree(ls[i].body);
      }
      forall i | 0 <= i < |lf| - 1 ensures lf[i].terminator == [LF] {
        assert IsTerminator(ls[i].terminator);
      }
    }
    LinesUnique(lf);
  }

  /** Two texts normalise alike exactly when they have the same lines. */
  lemma NormaliseEqualIffSameLines(s: Text, t: Text)
    ensures NormaliseText(s) == NormaliseText(t) <==> Bodies(Lines(s)) == Bodies(Lines(t))
  {
    hide Lines, NormaliseText, WithLf;
    NormaliseKeepsLines(s);
    NormaliseKeepsLines(t);
    if Bodies(Lines(s)) == Bodies(Lines(t)) {
      var a, b := Lines(s), Lines(t);
      WithLfAt(a);
      WithLfAt(b);
      LinesWellFormed(s);
      LinesWellFormed(t);
      assert |a| == |Bodies(a)| == |Bodies(b)| == |b|;
      forall i | 0 <= i < |a| ensures WithLf(a)[i] == WithLf(b)[i] {
        assert Bodies(a)[i] == Bodies(b)[i];
        assert i < |a| - 1 ==> IsTerminator(a[i].terminator) && IsTerminator(b[i].terminator);
      }
      assert WithLf(a) == WithLf(b);
      NormaliseJoins(s);
      NormaliseJoins(t);
    }
  }
}
