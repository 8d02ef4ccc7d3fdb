/** `js_escape`: interpolating a Python string into a JavaScript string literal, and reading
    that literal back as ECMA-262 (2022), section 12.9.4 says. */
module JsEscape {
  import opened Outcomes
  import opened Replacing

  /** A Python string is a sequence of code points, lone surrogates included. */
  newtype CodePoint = c: int | 0 <= c < 0x110000

  /** A JavaScript string value is a sequence of UTF-16 code units. */
  newtype CodeUnit = u: int | 0 <= u < 0x10000

  type Text = seq<CodePoint>

  const Backslash: CodePoint := 0x5C
  const DoubleQuote: CodePoint := 0x22
  const SingleQuote: CodePoint := 0x27
  const Lf: CodePoint := 0x0A
  const Cr: CodePoint := 0x0D
  const Ls: CodePoint := 0x2028
  const Ps: CodePoint := 0x2029

  /** `\u2028` and `\u2029`, spelled out. */
  const LsEscape: Text := [Backslash, 0x75, 0x32, 0x30, 0x32, 0x38]
  const PsEscape: Text := [Backslash, 0x75, 0x32, 0x30, 0x32, 0x39]

  // ----- The seven replacements -----

  function EscapeBackslashes(s: Text): Text {
    Replace(s, [Backslash], [Backslash, Backslash])
  }

  function EscapeQuotes(s: Text): Text {
    Replace(Replace(s, [DoubleQuote], [Backslash, DoubleQuote]), [SingleQuote], [Backslash, SingleQuote])
  }

  function EscapeBreaks(s: Text): Text {
    Replace(Replace(s, [Lf], [Backslash, 0x6E]), [Cr], [Backslash, 0x72])
  }

  function EscapeSeparators(s: Text): Text {
    Replace(Replace(s, [Ls], LsEscape), [Ps], PsEscape)
  }

  /** `js_escape`, each replacement over the whole result of the one before. */
  function Escape(s: Text): Text {
    EscapeSeparators(EscapeBreaks(EscapeQuotes(EscapeBackslashes(s))))
  }

  // ----- One left-to-right pass -----

  function EscapeOne(c: CodePoint): Text {
    if c == Backslash || c == DoubleQuote || c == SingleQuote then [Backslash, c]
    else if c == Lf then [Backslash, 0x6E]
    else if c == Cr then [Backslash, 0x72]
    else if c == Ls then LsEscape
    else if c == Ps then PsEscape
    else [c]
  }

  function EscapeEach(s: Text): Text {
    if s == [] then [] else EscapeOne(s[0]) + EscapeEach(s[1..])
  }

  lemma EscapeConcat(s: Text, t: Text)
    ensures Escape(s + t) == Escape(s) + Escape(t)
  {
    hide Replace;
    ReplaceSingleConcat(s, t, Backslash, [Backslash, Backslash]);
    var s1, t1 := EscapeBackslashes(s), EscapeBackslashes(t);
    ReplaceSingleConcat(s1, t1, DoubleQuote, [Backslash, DoubleQuote]);
    var s2 := Replace(s1, [DoubleQuote], [Backslash, DoubleQuote]);
    var t2 := Replace(t1, [DoubleQuote], [Backslash, DoubleQuote]);
    ReplaceSingleConcat(s2, t2, SingleQuote, [Backslash, SingleQuote]);
    var s3, t3 := EscapeQuotes(s1), EscapeQuotes(t1);
    ReplaceSingleConcat(s3, t3, Lf, [Backslash, 0x6E]);
    var s4, t4 := Replace(s3, [Lf], [Backslash, 0x6E]), Replace(t3, [Lf], [Backslash, 0x6E]);
    ReplaceSingleConcat(s4, t4, Cr, [Backslash, 0x72]);
    var s5, t5 := EscapeBreaks(s3), EscapeBreaks(t3);
    ReplaceSingleConcat(s5, t5, Ls, LsEscape);
    var s6, t6 := Replace(s5, [Ls], LsEscape), Replace(t5, [Ls], LsEscape);
    ReplaceSingleConcat(s6, t6, Ps, PsEscape);
  }

  lemma ReplaceWhole(x: CodePoint, to: Text)
    ensures Replace([x], [x], to) == to
  {
    ReplaceOne([x], x, to);
    ReplaceEmpty([x], to);
    assert [x][1..] == [];
  }

  lemma QuotesStep(c: CodePoint)
    requires c != Backslash
    ensures EscapeQuotes([c]) == if c == DoubleQuote || c == SingleQuote then [Backslash, c] else [c]
  {
    hide Replace;
    if c == DoubleQuote {
      ReplaceWhole(c, [Backslash, c]);
      ReplaceAbsent([Backslash, c], SingleQuote, [Backslash, SingleQuote]);
    } else {
      ReplaceAbsent([c], DoubleQuote, [Backslash, DoubleQuote]);
      if c == SingleQuote {
        ReplaceWhole(c, [Backslash, c]);
      } else {
        ReplaceAbsent([c], SingleQuote, [Backslash, SingleQuote]);
      }
    }
  }

  lemma BreaksStep(c: CodePoint)
    ensures EscapeBreaks([c]) == if c == Lf then [Backslash, 0x6E] else if c == Cr then [Backslash, 0x72] else [c]
  {
    hide Replace;
    if c == Lf {
      ReplaceWhole(c, [Backslash, 0x6E]);
      ReplaceAbsent([Backslash, 0x6E], Cr, [Backslash, 0x72]);
    } else {
      ReplaceAbsent([c], Lf, [Backslash, 0x6E]);
      if c == Cr {
        ReplaceWhole(c, [Backslash, 0x72]);
      } else {
        ReplaceAbsent([c], Cr, [Backslash, 0x72]);
      }
    }
  }

  lemma SeparatorsStep(c: CodePoint)
    ensures EscapeSeparators([c]) == if c == Ls then LsEscape else if c == Ps then PsEscape else [c]
  {
    hide Replace;
    if c == Ls {
      ReplaceWhole(c, LsEscape);
      ReplaceAbsent(LsEscape, Ps, PsEscape);
    } else {
      ReplaceAbsent([c], Ls, LsEscape);
      if c == Ps {
        ReplaceWhole(c, PsEscape);
      } else {
        ReplaceAbsent([c], Ps, PsEscape);
      }
    }
  }

  /** Text free of the characters a replacement looks for passes it. */
  lemma LaterStepsKeep(s: Text)
    requires DoubleQuote !in s && SingleQuote !in s && Lf !in s && Cr !in s && Ls !in s && Ps !in s
    ensures EscapeSeparators(EscapeBreaks(EscapeQuotes(s))) == s
  {
    hide Replace;
    ReplaceAbsent(s, DoubleQuote, [Backslash, DoubleQuote]);
    ReplaceAbsent(s, SingleQuote, [Backslash, SingleQuote]);
    LastStepsKeep(s);
  }

  lemma LastStepsKeep(s: Text)
    requires Lf !in s && Cr !in s && Ls !in s && Ps !in s
    ensures EscapeSeparators(EscapeBreaks(s)) == s
  {
    hide Replace;
    ReplaceAbsent(s, Lf, [Backslash, 0x6E]);
    ReplaceAbsent(s, Cr, [Backslash, 0x72]);
    ReplaceAbsent(s, Ls, LsEscape);
    ReplaceAbsent(s, Ps, PsEscape);
  }

  lemma EscapeOfOne(c: CodePoint)
    ensures Escape([c]) == EscapeOne(c)
  {
    hide Replace, EscapeSeparators, EscapeBreaks, EscapeQuotes;
    if c == Backslash {
      ReplaceWhole(c, [Backslash, Backslash]);
      LaterStepsKeep([Backslash, Backslash]);
    } else {
      ReplaceAbsent([c], Backslash, [Backslash, Backslash]);
      QuotesStep(c);
      if c == DoubleQuote || c == SingleQuote {
        LastStepsKeep([Backslash, c]);
      } else {
        BreaksStep(c);
        if c == Lf || c == Cr {
          AfterBreaks(EscapeBreaks([c]));
        } else {
          SeparatorsStep(c);
        }
      }
    }
  }

  lemma AfterBreaks(s: Text)
    requires Ls !in s && Ps !in s
    ensures EscapeSeparators(s) == s
  {
    hide Replace;
    ReplaceAbsent(s, Ls, LsEscape);
    ReplaceAbsent(s, Ps, PsEscape);
  }

  lemma EscapeNothing()
    ensures Escape([]) == []
  {
  }

  /** Seven replacements over the whole string are one pass, character by character: no
      replacement touches what an earlier one inserted. */
  lemma {:induction false} ReplacementsAreOnePass(s: Text)
    ensures Escape(s) == EscapeEach(s)
  {
    hide Escape, EscapeOne;
    if s == [] {
      EscapeNothing();
    } else {
      assert s == [s[0]] + s[1..];
      EscapeConcat([s[0]], s[1..]);
      EscapeOfOne(s[0]);
      ReplacementsAreOnePass(s[1..]);
    }
  }

  // ----- String literals (ECMA-262, section 12.9.4) -----

  predicate IsLineTerminator(c: CodePoint) {
    c == Lf || c == Cr || c == Ls || c == Ps
  }

  predicate IsDecimalDigit(c: CodePoint) {
    0x30 <= c <= 0x39
  }

  function HexDigit(c: CodePoint): Option<nat> {
    if IsDecimalDigit(c) then Some((c - 0x30) as int)
    else if 0x41 <= c <= 0x46 then Some((c - 0x41) as int + 10)
    else if 0x61 <= c <= 0x66 then Some((c - 0x61) as int + 10)
    else None
  }

  /** The value of a run of hexadecimal digits. */
  function HexValue(s: Text): Option<nat> {
    if s == [] then Some(0)
    else
      var n := |s| - 1;
      var high, low := HexValue(s[..n]), HexDigit(s[n]);
      if high.Some? && low.Some? then Some(16 * high.value + low.value) else None
  }

  /** UTF16EncodeCodePoint. */
  function Units(c: CodePoint): seq<CodeUnit> {
    if c < 0x10000 then [c as CodeUnit]
    else [(0xD800 + (c as int - 0x10000) / 0x400) as CodeUnit, (0xDC00 + (c as int - 0x10000) % 0x400) as CodeUnit]
  }

  function Utf16(s: Text): seq<CodeUnit> {
    if s == [] then [] else Units(s[0]) + Utf16(s[1..])
  }

  /** One element of the literal: the value it stands for and its length, or nothing. */
  datatype Element = Element(value: seq<CodeUnit>, length: nat)

  /** `CharacterEscapeSequence`: a single escape character, or one that stands for itself. */
  function CharacterEscape(c: CodePoint): CodePoint {
    if c == 0x62 then 0x08
    else if c == 0x74 then 0x09
    else if c == 0x6E then 0x0A
    else if c == 0x76 then 0x0B
    else if c == 0x66 then 0x0C
    else if c == 0x72 then 0x0D
    else c
  }

  /** The position of the first `}`. */
  function ClosingBrace(s: Text): Option<nat> {
    if s == [] then None
    else if s[0] == 0x7D then Some(0)
    else match ClosingBrace(s[1..])
         case None => None
         case Some(n) => Some(n + 1)
  }

  lemma {:induction false} ClosingBraceInside(s: Text)
    ensures ClosingBrace(s).Some? ==> ClosingBrace(s).value < |s|
  {
    if s != [] && s[0] != 0x7D {
      ClosingBraceInside(s[1..]);
    }
  }

  /** `\uXXXX` or `\u{X...}`; `s` starts behind the `u`. */
  function UnicodeEscape(s: Text): Option<Element> {
    if |s| >= 1 && s[0] == 0x7B then
      ClosingBraceInside(s[1..]);
      match ClosingBrace(s[1..])
      case None => None
      case Some(n) =>
        match HexValue(s[1..][..n])
        case None => None
        case Some(v) => if n > 0 && v < 0x110000 then Some(Element(Units(v as CodePoint), n + 4)) else None
    else if |s| >= 4 then
      match HexValue(s[..4])
      case None => None
      case Some(v) => if v < 0x10000 then Some(Element([v as CodeUnit], 6)) else None
    else None
  }

  /** What follows a backslash; the legacy octal escapes of sloppy code are refused. */
  function EscapeSequence(s: Text): Option<Element> {
    if s == [] then None
    else if s[0] == Cr && |s| > 1 && s[1] == Lf then Some(Element([], 3))
    else if IsLineTerminator(s[0]) then Some(Element([], 2))
    else if s[0] == 0x30 && (|s| == 1 || !IsDecimalDigit(s[1])) then Some(Element([0], 2))
    else if IsDecimalDigit(s[0]) then None
    else if s[0] == 0x78 then
      if |s| >= 3 then
        match HexValue(s[1..3])
        case None => None
        case Some(v) => if v < 0x100 then Some(Element([v as CodeUnit], 4)) else None
      else None
    else if s[0] == 0x75 then UnicodeEscape(s[1..])
    else Some(Element(Units(CharacterEscape(s[0])), 2))
  }

  /** The element at the front of the text inside a literal. LS and PS may stand for
      themselves there. */
  function FrontElement(s: Text): Option<Element>
    requires s != []
  {
    if s[0] == Backslash then EscapeSequence(s[1..])
    else if s[0] == Lf || s[0] == Cr then None
    else Some(Element(Units(s[0]), 1))
  }

  datatype Literal = Literal(value: seq<CodeUnit>, rest: Text)

  /** Reads a literal of either quote style whose opening quote has been taken: its value,
      and the text behind the closing quote. */
  function ReadLiteral(quote: CodePoint, s: Text): Option<Literal>
    decreases |s|
  {
    if s == [] then None
    else if s[0] == quote then Some(Literal([], s[1..]))
    else match FrontElement(s)
         case None => None
         case Some(e) =>
           if 0 < e.length <= |s| then
             match ReadLiteral(quote, s[e.length..])
             case None => None
             case Some(tail) => Some(Literal(e.value + tail.value, tail.rest))
           else None
  }

  // ----- The literal reads back as the original -----

  lemma SeparatorEscapes(rest: Text)
    ensures UnicodeEscape(LsEscape[2..] + rest) == Some(Element([0x2028], 6))
    ensures UnicodeEscape(PsEscape[2..] + rest) == Some(Element([0x2029], 6))
  {
    var ls, ps := LsEscape[2..], PsEscape[2..];
    assert (ls + rest)[..4] == ls && (ps + rest)[..4] == ps;
    HexOfFour(ls);
    HexOfFour(ps);
  }

  lemma HexOfFour(s: Text)
    requires |s| == 4 && forall i | 0 <= i < 4 :: HexDigit(s[i]).Some?
    ensures HexValue(s) == Some(4096 * HexDigit(s[0]).value + 256 * HexDigit(s[1]).value
                                + 16 * HexDigit(s[2]).value + HexDigit(s[3]).value)
  {
    hide HexDigit;
    assert s[..3][..2] == s[..2] && s[..2][..1] == s[..1] && s[..1][..0] == [];
    assert HexValue(s[..1]) == Some(HexDigit(s[0]).value);
    assert HexValue(s[..2]) == Some(16 * HexDigit(s[0]).value + HexDigit(s[1]).value);
  }

  /** One escaped character is one element that stands for it. */
  lemma ElementOfEscaped(c: CodePoint, rest: Text)
    ensures FrontElement(EscapeOne(c) + rest) == Some(Element(Units(c), |EscapeOne(c)|))
  {
    hide HexValue, UnicodeEscape;
    var s := EscapeOne(c) + rest;
    if c == Ls || c == Ps {
      assert s[1..][1..] == EscapeOne(c)[2..] + rest;
      SeparatorEscapes(rest);
    } else if |EscapeOne(c)| == 2 {
      assert s[1..] == [EscapeOne(c)[1]] + rest;
    }
  }

  /** An escaped character never opens with an unescaped quote. */
  lemma EscapedOpening(c: CodePoint)
    ensures EscapeOne(c) != [] && EscapeOne(c)[0] != DoubleQuote && EscapeOne(c)[0] != SingleQuote
  {
  }

  lemma ReadElement(quote: CodePoint, first: Text, tail: Text, value: seq<CodeUnit>, read: Literal)
    requires first != [] && first[0] != quote
    requires FrontElement(first + tail) == Some(Element(value, |first|))
    requires ReadLiteral(quote, tail) == Some(read)
    ensures ReadLiteral(quote, first + tail) == Some(Literal(value + read.value, read.rest))
  {
    hide FrontElement;
    assert (first + tail)[|first|..] == tail;
  }

  lemma EachHead(s: Text, behind: Text)
    requires s != []
    ensures EscapeEach(s) + behind == EscapeOne(s[0]) + (EscapeEach(s[1..]) + behind)
    ensures Utf16(s) == Units(s[0]) + Utf16(s[1..])
  {
    hide EscapeOne, Units;
  }

  lemma ReadEnd(quote: CodePoint, rest: Text)
    ensures ReadLiteral(quote, EscapeEach([]) + ([quote] + rest)) == Some(Literal(Utf16([]), rest))
  {
    assert EscapeEach([]) + ([quote] + rest) == [quote] + rest;
    assert ([quote] + rest)[1..] == rest;
  }

  lemma {:induction false} EachReadsBack(s: Text, quote: CodePoint, rest: Text)
    requires quote == DoubleQuote || quote == SingleQuote
    ensures ReadLiteral(quote, EscapeEach(s) + ([quote] + rest)) == Some(Literal(Utf16(s), rest))
  {
    hide *;
    if s == [] {
      ReadEnd(quote, rest);
    } else {
      var tail := EscapeEach(s[1..]) + ([quote] + rest);
      EachReadsBack(s[1..], quote, rest);
      ElementOfEscaped(s[0], tail);
      EscapedOpening(s[0]);
      ReadElement(quote, EscapeOne(s[0]), tail, Units(s[0]), Literal(Utf16(s[1..]), rest));
      EachHead(s, [quote] + rest);
    }
  }

  /** Between two quotes of either style the escaped text is one string literal, it ends
      where it was meant to end, and its value is the original string. */
  lemma LiteralReadsBack(s: Text, quote: CodePoint, rest: Text)
    requires quote == DoubleQuote || quote == SingleQuote
    ensures ReadLiteral(quote, Escape(s) + [quote] + rest) == Some(Literal(Utf16(s), rest))
  {
    hide *;
    ReplacementsAreOnePass(s);
    EachReadsBack(s, quote, rest);
    assert Escape(s) + [quote] + rest == Escape(s) + ([quote] + rest);
  }

  /** The escaped text never breaks the line it is put on. */
  lemma {:induction false} NoRawLineTerminator(s: Text, c: CodePoint)
    requires c in Escape(s)
    ensures !IsLineTerminator(c)
  {
    ReplacementsAreOnePass(s);
    if s != [] && c !in EscapeOne(s[0]) {
      ReplacementsAreOnePass(s[1..]);
      hide Escape;
      NoRawLineTerminator(s[1..], c);
    }
  }
}
