/**
 * The JavaScript built-in `btoa`: a string whose characters are all in the
 * Latin-1 range (code points 0..255) is read as bytes and encoded with the
 * base64 alphabet of section 4 of RFC 4648, padded with '='. Any character
 * above 255 makes `btoa` throw an InvalidCharacterError, modelled as None.
 *
 * `Decode` is not part of the worker; it is the strict partner that the
 * round trip `Decode(Encode(b)) == Some(b)` and its converse are stated
 * against.
 */
module Base64 {
  import opened Wrappers

  type Byte = b: int | 0 <= b < 256
  type Sextet = v: int | 0 <= v < 64

  /** The character for a 6-bit value (Table 1 of RFC 4648). */
  function CharOf(v: Sextet): char
  {
    if v < 26 then ('A' as int + v) as char
    else if v < 52 then ('a' as int + (v - 26)) as char
    else if v < 62 then ('0' as int + (v - 52)) as char
    else if v == 62 then '+'
    else '/'
  }

  /** The 64 characters of the alphabet; '=' is not one of them. */
  predicate InAlphabet(c: char)
  {
    'A' <= c <= 'Z' || 'a' <= c <= 'z' || '0' <= c <= '9' || c == '+' || c == '/'
  }

  /** The 6-bit value of an alphabet character (0 for any other character, which `Decode` rejects first). */
  function ValueOf(c: char): Sextet
  {
    if 'A' <= c <= 'Z' then c as int - 'A' as int
    else if 'a' <= c <= 'z' then c as int - 'a' as int + 26
    else if '0' <= c <= '9' then c as int - '0' as int + 52
    else if c == '+' then 62
    else if c == '/' then 63
    else 0
  }

  /** `CharOf` and `ValueOf` are inverse bijections between the sextets and the alphabet. */
  lemma CharOfInverse(v: Sextet)
    ensures ValueOf(CharOf(v)) == v
    ensures InAlphabet(CharOf(v)) && CharOf(v) != '='
  {
  }

  lemma ValueOfInverse(c: char)
    requires InAlphabet(c)
    ensures CharOf(ValueOf(c)) == c
  {
  }

  /**
   * One quantum (section 4 of RFC 4648): one to three bytes as four
   * characters. Missing bytes count as zero bits, and the characters that
   * would carry only missing bits are '='.
   */
  function EncodeQuantum(q: seq<Byte>): (t: string)
    requires 1 <= |q| <= 3
    ensures |t| == 4
  {
    if |q| == 1 then [CharOf(q[0] / 4), CharOf((q[0] % 4) * 16), '=', '=']
    else if |q| == 2 then [CharOf(q[0] / 4), CharOf((q[0] % 4) * 16 + q[1] / 16), CharOf((q[1] % 16) * 4), '=']
    else [CharOf(q[0] / 4), CharOf((q[0] % 4) * 16 + q[1] / 16), CharOf((q[1] % 16) * 4 + q[2] / 64), CharOf(q[2] % 64)]
  }

  /** Base64 with padding: whole quanta of three bytes, the last one padded. */
  function Encode(b: seq<Byte>): (t: string)
    ensures |t| == 4 * ((|b| + 2) / 3)
    decreases |b|
  {
    if |b| == 0 then ""
    else if |b| <= 2 then EncodeQuantum(b)
    else EncodeQuantum(b[..3]) + Encode(b[3..])
  }

  /** The 24 bits of four sextets as three bytes. */
  function Bytes(v0: Sextet, v1: Sextet, v2: Sextet, v3: Sextet): (b: seq<Byte>)
    ensures |b| == 3
  {
    [v0 * 4 + v1 / 16, (v1 % 16) * 16 + v2 / 4, (v2 % 4) * 64 + v3]
  }

  /**
   * Strict decoding of one quantum (section 3.5 of RFC 4648): alphabet
   * characters, then possibly "=" or "==", with the pad bits zero.
   */
  function DecodeQuantum(c0: char, c1: char, c2: char, c3: char): (r: Option<seq<Byte>>)
    ensures r.Some? ==> 1 <= |r.value| <= 3
  {
    if !InAlphabet(c0) || !InAlphabet(c1) then None
    else if c2 == '=' then
      if c3 == '=' && ValueOf(c1) % 16 == 0 then Some(Bytes(ValueOf(c0), ValueOf(c1), 0, 0)[..1]) else None
    else if !InAlphabet(c2) then None
    else if c3 == '=' then
      if ValueOf(c2) % 4 == 0 then Some(Bytes(ValueOf(c0), ValueOf(c1), ValueOf(c2), 0)[..2]) else None
    else if !InAlphabet(c3) then None
    else Some(Bytes(ValueOf(c0), ValueOf(c1), ValueOf(c2), ValueOf(c3)))
  }

  /**
   * Strict decoding: quanta of four characters, only the last of which may
   * be padded. Anything else (a length not a multiple of four, a character
   * outside the alphabet, misplaced '=', nonzero pad bits) is None.
   */
  function Decode(t: string): Option<seq<Byte>>
    decreases |t|
  {
    if |t| == 0 then Some([])
    else if |t| < 4 then None
    else
      match DecodeQuantum(t[0], t[1], t[2], t[3])
      case None => None
      case Some(q) =>
        if |q| < 3 then (if |t| == 4 then Some(q) else None)
        else
          match Decode(t[4..])
          case None => None
          case Some(rest) => Some(q + rest)
  }

  /** The bit arithmetic of one block: the four sextets give the three bytes back. */
  lemma BlockArithmetic(b0: Byte, b1: Byte, b2: Byte)
    ensures (b0 / 4) * 4 + ((b0 % 4) * 16 + b1 / 16) / 16 == b0
    ensures (((b0 % 4) * 16 + b1 / 16) % 16) * 16 + ((b1 % 16) * 4 + b2 / 64) / 4 == b1
    ensures (((b1 % 16) * 4 + b2 / 64) % 4) * 64 + b2 % 64 == b2
  {
    assert ((b0 % 4) * 16 + b1 / 16) / 16 == b0 % 4;
    assert ((b0 % 4) * 16 + b1 / 16) % 16 == b1 / 16;
    assert ((b1 % 16) * 4 + b2 / 64) / 4 == b1 % 16;
    assert ((b1 % 16) * 4 + b2 / 64) % 4 == b2 / 64;
  }

  /** The same arithmetic the other way: the three bytes give the four sextets back. */
  lemma SextetArithmetic(v0: Sextet, v1: Sextet, v2: Sextet, v3: Sextet)
    ensures var b := Bytes(v0, v1, v2, v3);
      && b[0] / 4 == v0
      && (b[0] % 4) * 16 + b[1] / 16 == v1
      && (b[1] % 16) * 4 + b[2] / 64 == v2
      && b[2] % 64 == v3
  {
    var b0, b1, b2 := v0 * 4 + v1 / 16, (v1 % 16) * 16 + v2 / 4, (v2 % 4) * 64 + v3;
    assert b0 / 4 == v0 && b0 % 4 == v1 / 16;
    assert b1 / 16 == v1 % 16 && b1 % 16 == v2 / 4;
    assert b2 / 64 == v2 % 4 && b2 % 64 == v3;
  }

  /** A quantum decodes back to its bytes. */
  lemma QuantumRoundTrip(q: seq<Byte>)
    requires 1 <= |q| <= 3
    ensures var t := EncodeQuantum(q); DecodeQuantum(t[0], t[1], t[2], t[3]) == Some(q)
  {
    if |q| == 1 {
      assert q == [q[0]];
      RoundTripOne(q[0]);
    } else if |q| == 2 {
      assert q == [q[0], q[1]];
      RoundTripTwo(q[0], q[1]);
    } else {
      assert q == [q[0], q[1], q[2]];
      RoundTripThree(q[0], q[1], q[2]);
    }
  }

  lemma RoundTripOne(b0: Byte)
    ensures var t := EncodeQuantum([b0]); DecodeQuantum(t[0], t[1], t[2], t[3]) == Some([b0])
  {
    var t := EncodeQuantum([b0]);
    assert t == [CharOf(b0 / 4), CharOf((b0 % 4) * 16), '=', '='];
    CharOfInverse(b0 / 4);
    CharOfInverse((b0 % 4) * 16);
    BlockArithmetic(b0, 0, 0);
    assert Bytes(b0 / 4, (b0 % 4) * 16, 0, 0)[..1] == [b0];
  }

  lemma RoundTripTwo(b0: Byte, b1: Byte)
    ensures var t := EncodeQuantum([b0, b1]); DecodeQuantum(t[0], t[1], t[2], t[3]) == Some([b0, b1])
  {
    var t := EncodeQuantum([b0, b1]);
    assert t == [CharOf(b0 / 4), CharOf((b0 % 4) * 16 + b1 / 16), CharOf((b1 % 16) * 4), '='];
    CharOfInverse(b0 / 4);
    CharOfInverse((b0 % 4) * 16 + b1 / 16);
    CharOfInverse((b1 % 16) * 4);
    BlockArithmetic(b0, b1, 0);
    assert Bytes(b0 / 4, (b0 % 4) * 16 + b1 / 16, (b1 % 16) * 4, 0)[..2] == [b0, b1];
  }

  lemma RoundTripThree(b0: Byte, b1: Byte, b2: Byte)
    ensures var t := EncodeQuantum([b0, b1, b2]); DecodeQuantum(t[0], t[1], t[2], t[3]) == Some([b0, b1, b2])
  {
    var t := EncodeQuantum([b0, b1, b2]);
    assert t == [CharOf(b0 / 4), CharOf((b0 % 4) * 16 + b1 / 16), CharOf((b1 % 16) * 4 + b2 / 64), CharOf(b2 % 64)];
    CharOfInverse(b0 / 4);
    CharOfInverse((b0 % 4) * 16 + b1 / 16);
    CharOfInverse((b1 % 16) * 4 + b2 / 64);
    CharOfInverse(b2 % 64);
    BlockArithmetic(b0, b1, b2);
  }

  /** A quantum that decodes is the encoding of what it decodes to. */
  lemma QuantumCanonical(c0: char, c1: char, c2: char, c3: char)
    requires DecodeQuantum(c0, c1, c2, c3).Some?
    ensures EncodeQuantum(DecodeQuantum(c0, c1, c2, c3).value) == [c0, c1, c2, c3]
  {
    if c2 == '=' {
      CanonicalOne(c0, c1);
    } else if c3 == '=' {
      CanonicalTwo(c0, c1, c2);
    } else {
      CanonicalThree(c0, c1, c2, c3);
    }
  }

  lemma CanonicalOne(c0: char, c1: char)
    requires InAlphabet(c0) && InAlphabet(c1) && ValueOf(c1) % 16 == 0
    ensures EncodeQuantum(Bytes(ValueOf(c0), ValueOf(c1), 0, 0)[..1]) == [c0, c1, '=', '=']
  {
    ValueOfInverse(c0);
    ValueOfInverse(c1);
    EncodeSextets(ValueOf(c0), ValueOf(c1), 0, 0);
  }

  lemma CanonicalTwo(c0: char, c1: char, c2: char)
    requires InAlphabet(c0) && InAlphabet(c1) && InAlphabet(c2) && ValueOf(c2) % 4 == 0
    ensures EncodeQuantum(Bytes(ValueOf(c0), ValueOf(c1), ValueOf(c2), 0)[..2]) == [c0, c1, c2, '=']
  {
    ValueOfInverse(c0);
    ValueOfInverse(c1);
    ValueOfInverse(c2);
    EncodeSextets(ValueOf(c0), ValueOf(c1), ValueOf(c2), 0);
  }

  lemma CanonicalThree(c0: char, c1: char, c2: char, c3: char)
    requires InAlphabet(c0) && InAlphabet(c1) && InAlphabet(c2) && InAlphabet(c3)
    ensures EncodeQuantum(Bytes(ValueOf(c0), ValueOf(c1), ValueOf(c2), ValueOf(c3))) == [c0, c1, c2, c3]
  {
    ValueOfInverse(c0);
    ValueOfInverse(c1);
    ValueOfInverse(c2);
    ValueOfInverse(c3);
    EncodeSextets(ValueOf(c0), ValueOf(c1), ValueOf(c2), ValueOf(c3));
  }

  /**
   * The bytes that four sextets carry encode as the characters of those
   * sextets; a shorter prefix does too when the sextets' unused bits are zero.
   */
  lemma EncodeSextets(v0: Sextet, v1: Sextet, v2: Sextet, v3: Sextet)
    ensures EncodeQuantum(Bytes(v0, v1, v2, v3)) == [CharOf(v0), CharOf(v1), CharOf(v2), CharOf(v3)]
    ensures v1 % 16 == 0 && v2 == 0 ==> EncodeQuantum(Bytes(v0, v1, v2, v3)[..1]) == [CharOf(v0), CharOf(v1), '=', '=']
    ensures v2 % 4 == 0 && v3 == 0 ==> EncodeQuantum(Bytes(v0, v1, v2, v3)[..2]) == [CharOf(v0), CharOf(v1), CharOf(v2), '=']
  {
    SextetArithmetic(v0, v1, v2, v3);
  }

  /** Every byte sequence is recovered from its base64 text. */
  lemma {:induction false} DecodeEncode(b: seq<Byte>)
    ensures Decode(Encode(b)) == Some(b)
    decreases |b|
  {
    if 1 <= |b| <= 2 {
      QuantumRoundTrip(b);
    } else if |b| >= 3 {
      var t := Encode(b);
      QuantumRoundTrip(b[..3]);
      assert t[4..] == Encode(b[3..]);
      DecodeEncode(b[3..]);
      assert b == b[..3] + b[3..];
    }
  }

  /** Every text `Decode` accepts is the encoding of what it decodes to. */
  lemma {:induction false} EncodeDecode(t: string)
    requires Decode(t).Some?
    ensures Encode(Decode(t).value) == t
    decreases |t|
  {
    if |t| > 0 {
      var q := DecodeQuantum(t[0], t[1], t[2], t[3]).value;
      QuantumCanonical(t[0], t[1], t[2], t[3]);
      DecodeStep(t);
      if |q| == 3 {
        var rest := Decode(t[4..]).value;
        EncodeDecode(t[4..]);
        EncodeStep(q, rest);
      }
    }
  }

  /** One step of `Decode` on a non-empty text it accepts. */
  lemma DecodeStep(t: string)
    requires |t| > 0 && Decode(t).Some?
    ensures |t| >= 4 && DecodeQuantum(t[0], t[1], t[2], t[3]).Some?
    ensures var q := DecodeQuantum(t[0], t[1], t[2], t[3]).value;
      && [t[0], t[1], t[2], t[3]] == t[..4]
      && (|q| < 3 ==> t == t[..4] && Decode(t) == Some(q))
      && (|q| == 3 ==> Decode(t[4..]).Some? && Decode(t) == Some(q + Decode(t[4..]).value))
  {
  }

  /** One step of `Encode` over a whole first quantum. */
  lemma EncodeStep(q: seq<Byte>, rest: seq<Byte>)
    requires |q| == 3
    ensures Encode(q + rest) == EncodeQuantum(q) + Encode(rest)
  {
    var b := q + rest;
    assert b[..3] == q && b[3..] == rest;
  }

  /** At most one text decodes to given bytes: the base64 text of a byte sequence is unique. */
  lemma CanonicalText(t: string, u: string)
    requires Decode(t).Some? && Decode(t) == Decode(u)
    ensures t == u
  {
    EncodeDecode(t);
    EncodeDecode(u);
  }

  /** Every character is a Latin-1 code point, so `btoa` can read it as one byte. */
  predicate IsLatin1(s: string)
  {
    forall i :: 0 <= i < |s| ==> s[i] as int < 256
  }

  function Latin1Bytes(s: string): (b: seq<Byte>)
    requires IsLatin1(s)
    ensures |b| == |s|
    ensures forall i :: 0 <= i < |s| ==> b[i] == s[i] as int
  {
    seq(|s|, i requires 0 <= i < |s| => s[i] as int)
  }

  function Latin1String(b: seq<Byte>): (s: string)
    ensures |s| == |b|
    ensures forall i :: 0 <= i < |b| ==> s[i] as int == b[i]
  {
    seq(|b|, i requires 0 <= i < |b| => b[i] as char)
  }

  /** Distinct byte sequences give distinct strings. */
  lemma Latin1StringInjective(b: seq<Byte>, c: seq<Byte>)
    requires Latin1String(b) == Latin1String(c)
    ensures b == c
  {
    assert forall i | 0 <= i < |b| :: b[i] == Latin1String(b)[i] as int == c[i];
  }

  lemma Latin1RoundTrip(s: string)
    requires IsLatin1(s)
    ensures Latin1String(Latin1Bytes(s)) == s
  {
  }

  /**
   * `btoa(s)`: None exactly when some character is above 255 (the built-in
   * throws); otherwise the base64 text, which strictly decodes back to `s`
   * (and is therefore, by `CanonicalText`, the only text that does).
   */
  function Btoa(s: string): (r: Option<string>)
    ensures r.Some? <==> IsLatin1(s)
    ensures r.Some? ==> Decode(r.value).Some? && Latin1String(Decode(r.value).value) == s
  {
    if IsLatin1(s) then
      var bytes := Latin1Bytes(s);
      DecodeEncode(bytes);
      Latin1RoundTrip(s);
      Some(Encode(bytes))
    else None
  }
}
