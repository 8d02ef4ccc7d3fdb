/** Strict UTF-8 as RFC 3629 defines it: section 3 gives the bit layout of the
    encoder, section 4 the byte grammar the decoder accepts. */
module Utf8 {
  import opened Outcomes
  import opened Sequences

  newtype Byte = b: int | 0 <= b < 0x100

  type Bytes = seq<Byte>

  /** Decoded text. A Dafny `char` is a Unicode scalar value, which is exactly what
      a strict decoder can produce. */
  type Text = string

  // ----- Encoding (RFC 3629, section 3) -----

  /** The payload is split into six-bit groups, most significant first. */
  function EncodeScalar(c: char): (bs: Bytes)
    ensures 1 <= |bs| <= 4
  {
    var n := c as int;
    var q, low := n / 0x40, n % 0x40;
    var qq, mid := q / 0x40, q % 0x40;
    if n < 0x80 then [n as Byte]
    else if n < 0x800 then [(0xC0 + q) as Byte, (0x80 + low) as Byte]
    else if n < 0x10000 then [(0xE0 + qq) as Byte, (0x80 + mid) as Byte, (0x80 + low) as Byte]
    else [(0xF0 + qq / 0x40) as Byte, (0x80 + qq % 0x40) as Byte, (0x80 + mid) as Byte, (0x80 + low) as Byte]
  }

  function Encode(t: Text): Bytes {
    if t == [] then [] else EncodeScalar(t[0]) + Encode(t[1..])
  }

  // ----- Decoding (RFC 3629, section 4) -----

  predicate IsTail(b: Byte) {
    0x80 <= b <= 0xBF
  }

  /** The length of the UTF8-char at the front of `bs`, or 0 when there is none. */
  function FrontLength(bs: Bytes): (n: nat)
    ensures n <= |bs| && n <= 4
  {
    if |bs| >= 1 && bs[0] <= 0x7F then 1
    else if |bs| >= 2 && 0xC2 <= bs[0] <= 0xDF && IsTail(bs[1]) then 2
    else if |bs| >= 3 && IsTail(bs[2]) && IsThreeByteLead(bs[0], bs[1]) then 3
    else if |bs| >= 4 && IsTail(bs[2]) && IsTail(bs[3]) && IsFourByteLead(bs[0], bs[1]) then 4
    else 0
  }

  predicate IsThreeByteLead(b0: Byte, b1: Byte) {
    || (b0 == 0xE0 && 0xA0 <= b1 <= 0xBF)
    || (0xE1 <= b0 <= 0xEC && IsTail(b1))
    || (b0 == 0xED && 0x80 <= b1 <= 0x9F)
    || (0xEE <= b0 <= 0xEF && IsTail(b1))
  }

  predicate IsFourByteLead(b0: Byte, b1: Byte) {
    || (b0 == 0xF0 && 0x90 <= b1 <= 0xBF)
    || (0xF1 <= b0 <= 0xF3 && IsTail(b1))
    || (b0 == 0xF4 && 0x80 <= b1 <= 0x8F)
  }

  function FrontScalar(bs: Bytes): char
    requires FrontLength(bs) > 0
  {
    var n := FrontLength(bs);
    if n == 1 then bs[0] as int as char
    else if n == 2 then AppendBits(bs[0] as int - 0xC0, bs[1]) as char
    else if n == 3 then AppendBits(AppendBits(bs[0] as int - 0xE0, bs[1]), bs[2]) as char
    else AppendBits(AppendBits(AppendBits(bs[0] as int - 0xF0, bs[1]), bs[2]), bs[3]) as char
  }

  /** Append the six payload bits of a continuation byte. */
  function AppendBits(high: int, tail: Byte): int {
    high * 0x40 + (tail as int - 0x80)
  }

  /** `bytes.decode("utf-8")`: `None` stands for `UnicodeDecodeError`. */
  function Decode(bs: Bytes): Option<Text> {
    if bs == [] then Some([])
    else
      var n := FrontLength(bs);
      if n == 0 then None
      else
        match Decode(bs[n..])
        case None => None
        case Some(rest) => Some([FrontScalar(bs)] + rest)
  }

  // ----- One character -----

  lemma FrontOfEncoded(c: char, rest: Bytes)
    ensures FrontLength(EncodeScalar(c) + rest) == |EncodeScalar(c)|
    ensures FrontScalar(EncodeScalar(c) + rest) == c
  {
    var e := EncodeScalar(c);
    var bs := e + rest;
    assert |e| >= 1 ==> bs[0] == e[0];
    assert |e| >= 2 ==> bs[1] == e[1];
    assert |e| >= 3 ==> bs[2] == e[2];
    assert |e| >= 4 ==> bs[3] == e[3];
  }

  lemma EncodedFront(bs: Bytes)
    requires FrontLength(bs) > 0
    ensures EncodeScalar(FrontScalar(bs)) == bs[..FrontLength(bs)]
  {
    var n := FrontLength(bs);
    var c := FrontScalar(bs);
    var e := EncodeScalar(c);
    assert |e| == n;
    assert n >= 1 ==> e[0] == bs[0];
    assert n >= 2 ==> e[1] == bs[1];
    assert n >= 3 ==> e[2] == bs[2];
    assert n >= 4 ==> e[3] == bs[3];
  }

  // ----- Round trips -----

  /** Decoding undoes encoding. */
  lemma {:induction false} DecodeEncode(t: Text)
    ensures Decode(Encode(t)) == Some(t)
  {
    if t != [] {
      var e, rest := EncodeScalar(t[0]), Encode(t[1..]);
      FrontOfEncoded(t[0], rest);
      assert (e + rest)[|e|..] == rest;
      DecodeEncode(t[1..]);
      assert [t[0]] + t[1..] == t;
    }
  }

  /** Encoding undoes decoding: a byte string that decodes has only one spelling. */
  lemma {:induction false} EncodeDecode(bs: Bytes)
    requires Decode(bs).Some?
    ensures Encode(Decode(bs).value) == bs
  {
    if bs != [] {
      hide FrontLength, FrontScalar, EncodeScalar;
      var n := FrontLength(bs);
      EncodeDecode(bs[n..]);
      EncodedFront(bs);
      var t := Decode(bs).value;
      assert t[1..] == Decode(bs[n..]).value;
      assert bs == bs[..n] + bs[n..];
    }
  }

  /** The decoder accepts exactly the encodings. */
  lemma DecodesIffEncoded(bs: Bytes)
    ensures Decode(bs).Some? <==> exists t: Text :: Encode(t) == bs
  {
    if Decode(bs).Some? {
      EncodeDecode(bs);
      assert Encode(Decode(bs).value) == bs;
    }
    forall t: Text | Encode(t) == bs ensures Decode(bs).Some? {
      DecodeEncode(t);
    }
  }

  lemma DecodeInjective(a: Bytes, b: Bytes)
    requires Decode(a).Some? && Decode(b).Some?
    ensures Decode(a) == Decode(b) <==> a == b
  {
    EncodeDecode(a);
    EncodeDecode(b);
  }

  // ----- Concatenation and prefixes -----

  lemma {:induction false} EncodeConcat(t: Text, u: Text)
    ensures Encode(t + u) == Encode(t) + Encode(u)
  {
    if t == [] {
      assert t + u == u;
    } else {
      EncodeConcat(t[1..], u);
      assert (t + u)[1..] == t[1..] + u;
      AppendAssociates(EncodeScalar(t[0]), Encode(t[1..]), Encode(u));
    }
  }

  lemma EncodeNonEmpty(t: Text)
    ensures Encode(t) == [] <==> t == []
  {
  }

  /** UTF-8 is self-synchronising at the front: a text whose encoding is a prefix
      of another encoding is itself a prefix of that text. */
  lemma {:induction false} EncodePrefix(u: Text, t: Text)
    requires Encode(u) <= Encode(t)
    ensures u <= t
  {
    if u != [] {
      assert |Encode(u)| > 0;
      assert t != [];
      FrontOfEncoded(u[0], Encode(u[1..]));
      FrontOfEncoded(t[0], Encode(t[1..]));
      var n := |EncodeScalar(u[0])|;
      assert Encode(t)[..|Encode(u)|] == Encode(u);
      FrontOfEncoded(u[0], Encode(t)[n..]);
      assert Encode(t) == EncodeScalar(u[0]) + Encode(t)[n..];
      assert u[0] == t[0];
      assert Encode(u)[n..] == Encode(u[1..]) && Encode(t)[n..] == Encode(t[1..]);
      EncodePrefix(u[1..], t[1..]);
      assert u == [u[0]] + u[1..] && t == [t[0]] + t[1..];
    }
  }
}
