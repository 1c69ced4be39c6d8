/** `str.encode("utf-8")` and the strict `bytes.decode("utf-8")`. */
module Utf8 {
  import opened Options

  type Byte = b: int | 0 <= b < 256
  type Bytes = seq<Byte>

  function EncodeChar(c: char): Bytes {
    var n := c as int;
    if n < 0x80 then [n]
    else if n < 0x800 then [0xC0 + n / 64, 0x80 + n % 64]
    else if n < 0x10000 then [0xE0 + n / 64 / 64, 0x80 + n / 64 % 64, 0x80 + n % 64]
    else [0xF0 + n / 64 / 64 / 64, 0x80 + n / 64 / 64 % 64, 0x80 + n / 64 % 64, 0x80 + n % 64]
  }

  function Encode(s: string): Bytes {
    if s == "" then [] else EncodeChar(s[0]) + Encode(s[1..])
  }

  // Lead bytes by the number of bytes after them: 0xxxxxxx, 110xxxxx, 1110xxxx, 11110xxx.
  const LEADS := [0x00, 0xC0, 0xE0, 0xF0]
  const LIMITS := [0x80, 0x800, 0x1_0000, 0x11_0000]

  // The value of a lead byte's bits and the low six bits of each byte after it.
  function BitsOf(b: Bytes): int
    requires 1 <= |b| <= 4
  {
    if |b| == 1 then b[0] as int
    else if |b| == 2 then Low(b[0], LEADS[1]) * 64 + Low(b[1], 0x80)
    else if |b| == 3 then (Low(b[0], LEADS[2]) * 64 + Low(b[1], 0x80)) * 64 + Low(b[2], 0x80)
    else ((Low(b[0], LEADS[3]) * 64 + Low(b[1], 0x80)) * 64 + Low(b[2], 0x80)) * 64 + Low(b[3], 0x80)
  }

  function Low(b: Byte, marker: int): int {
    b as int - marker
  }

  /** Section 3 of RFC 3629: the shortest form that holds the code point, a lead byte and bytes 10xxxxxx. */
  lemma EncodesByBits(c: char)
    ensures var b := EncodeChar(c);
            && 1 <= |b| <= 4 && BitsOf(b) == c as int
            && c as int < LIMITS[|b| - 1] && (|b| > 1 ==> c as int >= LIMITS[|b| - 2])
            && LEADS[|b| - 1] <= b[0] && (forall i :: 1 <= i < |b| ==> 0x80 <= b[i] < 0xC0)
  {
  }

  predicate IsTail(b: Byte) {
    0x80 <= b < 0xC0
  }

  // The bits a byte carries beside its marker.
  function Bits(b: Byte, marker: int): int {
    b as int - marker
  }

  // The code point of a lead byte and its continuation bytes; None for any other length or byte.
  function Assemble(b: Bytes): Option<int> {
    if |b| == 1 && b[0] < 0x80 then Some(Bits(b[0], 0))
    else if |b| == 2 && 0xC0 <= b[0] < 0xE0 && IsTail(b[1]) then Some(Bits(b[0], 0xC0) * 64 + Bits(b[1], 0x80))
    else if |b| == 3 && 0xE0 <= b[0] < 0xF0 && IsTail(b[1]) && IsTail(b[2]) then
      Some((Bits(b[0], 0xE0) * 64 + Bits(b[1], 0x80)) * 64 + Bits(b[2], 0x80))
    else if |b| == 4 && 0xF0 <= b[0] < 0xF8 && IsTail(b[1]) && IsTail(b[2]) && IsTail(b[3]) then
      Some(((Bits(b[0], 0xF0) * 64 + Bits(b[1], 0x80)) * 64 + Bits(b[2], 0x80)) * 64 + Bits(b[3], 0x80))
    else None
  }

  function Length(lead: Byte): nat {
    if lead < 0x80 then 1 else if lead < 0xE0 then 2 else if lead < 0xF0 then 3 else 4
  }

  // Overlong forms, surrogates and code points above U+10FFFF are refused.
  function Scalar(b: Bytes): Option<char> {
    match Assemble(b)
    case None => None
    case Some(n) =>
      if (|b| == 2 && n < 0x80) || (|b| == 3 && n < 0x800) || (|b| == 4 && n < 0x10000) then None
      else if 0xD800 <= n < 0xE000 || n >= 0x110000 then None
      else Some(n as char)
  }

  function Decode(b: Bytes): Option<string> {
    if b == [] then Some("")
    else if |b| < Length(b[0]) then None
    else
      match Scalar(b[..Length(b[0])])
      case None => None
      case Some(c) =>
        match Decode(b[Length(b[0])..]) case None => None case Some(s) => Some([c] + s)
  }

  lemma ScalarOfEncoded(c: char)
    ensures Scalar(EncodeChar(c)) == Some(c)
    ensures EncodeChar(c) != [] && |EncodeChar(c)| == Length(EncodeChar(c)[0])
  {
  }

  lemma DivMod(q: int, r: int)
    requires 0 <= r < 64
    ensures (q * 64 + r) / 64 == q && (q * 64 + r) % 64 == r
  {
  }

  lemma TwoBytes(b: Bytes, c: char)
    requires |b| == 2 && Scalar(b) == Some(c)
    ensures EncodeChar(c) == b
  {
    DivMod(Bits(b[0], 0xC0), Bits(b[1], 0x80));
  }

  lemma ThreeBytes(b: Bytes, c: char)
    requires |b| == 3 && Scalar(b) == Some(c)
    ensures EncodeChar(c) == b
  {
    var high := Bits(b[0], 0xE0) * 64 + Bits(b[1], 0x80);
    DivMod(Bits(b[0], 0xE0), Bits(b[1], 0x80));
    DivMod(high, Bits(b[2], 0x80));
    assert c as int / 64 == high;
  }

  lemma FourBytes(b: Bytes, c: char)
    requires |b| == 4 && Scalar(b) == Some(c)
    ensures EncodeChar(c) == b
  {
    var top := Bits(b[0], 0xF0) * 64 + Bits(b[1], 0x80);
    var high := top * 64 + Bits(b[2], 0x80);
    DivMod(Bits(b[0], 0xF0), Bits(b[1], 0x80));
    DivMod(top, Bits(b[2], 0x80));
    DivMod(high, Bits(b[3], 0x80));
    assert c as int / 64 == high;
  }

  lemma EncodeOfScalar(b: Bytes, c: char)
    requires Scalar(b) == Some(c)
    ensures EncodeChar(c) == b
  {
    if |b| == 2 {
      TwoBytes(b, c);
    } else if |b| == 3 {
      ThreeBytes(b, c);
    } else if |b| == 4 {
      FourBytes(b, c);
    }
  }

  lemma {:induction false} DecodeEncode(s: string)
    ensures Decode(Encode(s)) == Some(s)
  {
    if s != "" {
      ScalarOfEncoded(s[0]);
      var first, rest := EncodeChar(s[0]), Encode(s[1..]);
      assert (first + rest)[0] == first[0];
      assert (first + rest)[..|first|] == first && (first + rest)[|first|..] == rest;
      DecodeEncode(s[1..]);
      assert [s[0]] + s[1..] == s;
    }
  }

  // The lead group gives the first character, the bytes after it the rest.
  lemma DecodeLead(b: Bytes, s: string)
    requires b != [] && Decode(b) == Some(s)
    ensures Length(b[0]) <= |b| && s != ""
    ensures Scalar(b[..Length(b[0])]) == Some(s[0]) && Decode(b[Length(b[0])..]) == Some(s[1..])
  {
  }

  lemma EncodeLead(s: string, lead: Bytes, rest: Bytes)
    requires s != "" && EncodeChar(s[0]) == lead && Encode(s[1..]) == rest
    ensures Encode(s) == lead + rest
  {
  }

  lemma {:induction false} EncodeDecode(b: Bytes, s: string)
    requires Decode(b) == Some(s)
    ensures Encode(s) == b
    decreases |b|
  {
    if b != [] {
      var n := Length(b[0]);
      DecodeLead(b, s);
      EncodeOfScalar(b[..n], s[0]);
      EncodeDecode(b[n..], s[1..]);
      EncodeLead(s, b[..n], b[n..]);
      assert b[..n] + b[n..] == b;
    }
  }

  /** Bytes decode to a text exactly when they are its encoding, so each text has one encoding. */
  lemma DecodesItsEncoding(b: Bytes, s: string)
    ensures Decode(b) == Some(s) <==> b == Encode(s)
  {
    DecodeEncode(s);
    if Decode(b) == Some(s) { EncodeDecode(b, s); }
  }

  lemma {:induction false} EncodeAppends(s: string, t: string)
    ensures Encode(s + t) == Encode(s) + Encode(t)
  {
    if s == "" {
      assert s + t == t;
    } else {
      assert (s + t)[1..] == s[1..] + t;
      EncodeAppends(s[1..], t);
    }
  }

  predicate IsAscii(s: string) {
    forall c :: c in s ==> c as int < 0x80
  }
}
