/**
 Base64 as the Python functions compute it, RFC 4648 sections 4 and 5: `b64encode`, `b64decode` in its
 lenient and its validating form, the url-safe alphabet, and padding stripped and put back.
 */
module Base64 {
  import opened Letters
  import opened Options
  import opened Utf8

  // ----- the alphabet -----

  type Sextet = n: int | 0 <= n < 64

  function Symbol(n: Sextet): char {
    if n < 26 then ('A' as int + n) as char
    else if n < 52 then ('a' as int + n - 26) as char
    else if n < 62 then ('0' as int + n - 52) as char
    else if n == 62 then '+' else '/'
  }

  function Value(c: char): Option<Sextet> {
    if 'A' <= c <= 'Z' then Some(c as int - 'A' as int)
    else if 'a' <= c <= 'z' then Some(c as int - 'a' as int + 26)
    else if '0' <= c <= '9' then Some(c as int - '0' as int + 52)
    else if c == '+' then Some(62)
    else if c == '/' then Some(63)
    else None
  }

  lemma SymbolHasValue(n: Sextet)
    ensures Value(Symbol(n)) == Some(n)
  {
  }

  // ----- b64encode -----

  function EncodeGroup(a: Byte, b: Byte, c: Byte): string {
    [Symbol(a / 4), Symbol(a % 4 * 16 + b / 16), Symbol(b % 16 * 4 + c / 64), Symbol(c % 64)]
  }

  function B64Encode(b: Bytes): string {
    if |b| == 0 then ""
    else if |b| == 1 then EncodeGroup(b[0], 0, 0)[..2] + "=="
    else if |b| == 2 then EncodeGroup(b[0], b[1], 0)[..3] + "="
    else EncodeGroup(b[0], b[1], b[2]) + B64Encode(b[3..])
  }

  const ALPHABET := CAPITALS + SMALL + DIGITS + "+/"
  const URL_ALPHABET := CAPITALS + SMALL + DIGITS + "-_"

  lemma SymbolInAlphabet(n: Sextet)
    ensures Symbol(n) == ALPHABET[n] && ToUrl(Symbol(n)) == URL_ALPHABET[n]
  {
    if n < 26 {
      CapitalAt(n);
    } else if n < 52 {
      SmallAt(n - 26);
    } else if n < 62 {
      DigitAt(n - 52);
    }
  }

  // The bytes 4h + i, 16j + k and 64l + m regrouped into sextets.
  lemma GroupSum(h: int, i: int, j: int, k: int, l: int, m: int)
    ensures h * 0x4_0000 + (i * 16 + j) * 0x1000 + (k * 4 + l) * 64 + m
         == (4 * h + i) * 0x1_0000 + (16 * j + k) * 0x100 + (64 * l + m)
  {
  }

  lemma GroupValue(a: int, b: int, c: int)
    ensures a / 4 * 0x4_0000 + (a % 4 * 16 + b / 16) * 0x1000 + (b % 16 * 4 + c / 64) * 64 + c % 64
         == a * 0x1_0000 + b * 0x100 + c
  {
    var h, i, j, k, l, m := a / 4, a % 4, b / 16, b % 16, c / 64, c % 64;
    assert a == 4 * h + i && b == 16 * j + k && c == 64 * l + m;
    GroupSum(h, i, j, k, l, m);
  }

  lemma GroupLetters(n0: Sextet, n1: Sextet, n2: Sextet, n3: Sextet)
    ensures [Symbol(n0), Symbol(n1), Symbol(n2), Symbol(n3)]
         == [ALPHABET[n0], ALPHABET[n1], ALPHABET[n2], ALPHABET[n3]]
  {
    SymbolInAlphabet(n0);
    SymbolInAlphabet(n1);
    SymbolInAlphabet(n2);
    SymbolInAlphabet(n3);
  }

  lemma GroupByAlphabet(a: Byte, b: Byte, c: Byte)
      returns (n0: Sextet, n1: Sextet, n2: Sextet, n3: Sextet)
    ensures EncodeGroup(a, b, c) == [ALPHABET[n0], ALPHABET[n1], ALPHABET[n2], ALPHABET[n3]]
    ensures n0 as int * 0x4_0000 + n1 as int * 0x1000 + n2 as int * 64 + n3 as int
         == a as int * 0x1_0000 + b as int * 0x100 + c as int
  {
    n0, n1, n2, n3 := a / 4, a % 4 * 16 + b / 16, b % 16 * 4 + c / 64, c % 64;
    GroupValue(a, b, c);
    GroupLetters(n0, n1, n2, n3);
  }

  function ByteOr0(b: Bytes, i: nat): int {
    if i < |b| then b[i] else 0
  }

  /**
   The encoder's text: three bytes are one 24-bit number, written as four digits of the alphabet; a missing
   byte counts as zero, and the digit that would hold nothing else is an '='.
   */
  lemma EncodesByAlphabet(b: Bytes) returns (n0: Sextet, n1: Sextet, n2: Sextet, n3: Sextet)
    requires b != []
    ensures n0 as int * 0x4_0000 + n1 as int * 0x1000 + n2 as int * 64 + n3 as int
         == ByteOr0(b, 0) * 0x1_0000 + ByteOr0(b, 1) * 0x100 + ByteOr0(b, 2)
    ensures B64Encode(b)
         == [ALPHABET[n0], ALPHABET[n1], if |b| > 1 then ALPHABET[n2] else '=', if |b| > 2 then ALPHABET[n3] else '=']
            + B64Encode(if |b| > 3 then b[3..] else [])
  {
    n0, n1, n2, n3 := GroupByAlphabet(b[0], ByteOr0(b, 1), ByteOr0(b, 2));
    assert |b| == 3 ==> b[3..] == [];
  }

  /** The url-safe text is the same with the last two letters of the alphabet replaced, '=' staying itself. */
  lemma UrlByAlphabet(n: Sextet)
    ensures ToUrl(ALPHABET[n]) == URL_ALPHABET[n] && FromUrl(URL_ALPHABET[n]) == ALPHABET[n]
    ensures ToUrl('=') == '=' && FromUrl('=') == '='
  {
    SymbolInAlphabet(n);
  }

  // ----- b64decode: binascii.a2b_base64, one character at a time -----

  // `quad` is the position in the current group, `left` the bits carried over, `pads` the '=' seen since
  // the last data character. The strict mode is validate=True.
  function Scan(strict: bool, s: string, quad: nat, left: nat, pads: nat): Option<Bytes>
    requires quad < 4 && (quad == 1 ==> left < 64) && (quad == 2 ==> left < 16) && (quad == 3 ==> left < 4)
    decreases |s|
  {
    if s == "" then
      if quad == 0 then Some([]) else None
    else if s[0] == '=' then
      if strict && quad <= 1 then None
      else if quad >= 2 && quad + pads + 1 >= 4 then
        if strict && |s| > 1 then None else Some([])
      else Scan(strict, s[1..], quad, left, if quad >= 2 then pads + 1 else pads)
    else
      match Value(s[0])
      case None => if strict then None else Scan(strict, s[1..], quad, left, pads)
      case Some(n) =>
        if strict && pads > 0 then None
        else if quad == 0 then Scan(strict, s[1..], 1, n, 0)
        else if quad == 1 then Emit(left * 4 + n / 16, Scan(strict, s[1..], 2, n % 16, 0))
        else if quad == 2 then Emit(left * 16 + n / 4, Scan(strict, s[1..], 3, n % 4, 0))
        else Emit(left * 64 + n, Scan(strict, s[1..], 0, 0, 0))
  }

  function Emit(b: Byte, rest: Option<Bytes>): Option<Bytes> {
    match rest case None => None case Some(bs) => Some([b] + bs)
  }

  // A str argument must be ASCII.
  function B64Decode(strict: bool, s: string): Option<Bytes> {
    if IsAscii(s) then Scan(strict, s, 0, 0, 0) else None
  }

  // ----- the url-safe alphabet and the padding -----

  function ToUrl(c: char): char {
    if c == '+' then '-' else if c == '/' then '_' else c
  }

  function FromUrl(c: char): char {
    if c == '-' then '+' else if c == '_' then '/' else c
  }

  function Map(f: char -> char, s: string): (r: string)
    ensures |r| == |s| && forall i :: 0 <= i < |s| ==> r[i] == f(s[i])
  {
    if s == "" then "" else [f(s[0])] + Map(f, s[1..])
  }

  function UrlEncode(b: Bytes): string {
    Map(ToUrl, B64Encode(b))
  }

  // '-' and '_' are read as '+' and '/', which are still accepted themselves.
  function UrlDecode(s: string): Option<Bytes> {
    B64Decode(false, Map(FromUrl, s))
  }

  // rstrip("=")
  function Unpad(s: string): string {
    if s != "" && s[|s| - 1] == '=' then Unpad(s[..|s| - 1]) else s
  }

  function Fill(n: nat): string {
    seq(n, i => '=')
  }

  // How many '=' a text of this length lacks, as the token module, the gateway and the Keycloak script put
  // it. Python's -len % 4 is never negative, and neither is Dafny's.
  function PythonPads(length: nat): nat {
    -(length as int) % 4
  }

  function LuaPads(length: nat): nat {
    if length % 4 > 0 then 4 - length % 4 else 0
  }

  function ScriptPads(length: nat): nat {
    (4 - length % 4) % 4
  }

  function Pad(s: string): string {
    s + Fill(PythonPads(|s|))
  }

  // ----- encoding then decoding -----

  // One data character at each position of a group.
  lemma ScanData(strict: bool, n: Sextet, s: string, left: nat)
    ensures Scan(strict, [Symbol(n)] + s, 0, 0, 0) == Scan(strict, s, 1, n, 0)
    ensures left < 64 ==>
              Scan(strict, [Symbol(n)] + s, 1, left, 0) == Emit(left * 4 + n / 16, Scan(strict, s, 2, n % 16, 0))
    ensures left < 16 ==>
              Scan(strict, [Symbol(n)] + s, 2, left, 0) == Emit(left * 16 + n / 4, Scan(strict, s, 3, n % 4, 0))
    ensures left < 4 ==>
              Scan(strict, [Symbol(n)] + s, 3, left, 0) == Emit(left * 64 + n, Scan(strict, s, 0, 0, 0))
  {
    SymbolHasValue(n);
    assert ([Symbol(n)] + s)[1..] == s && ([Symbol(n)] + s)[0] == Symbol(n) != '=';
  }

  lemma GroupBits(a: Byte, b: Byte, c: Byte)
    ensures var n0, n1, n2, n3 := a / 4, a % 4 * 16 + b / 16, b % 16 * 4 + c / 64, c % 64;
            && 0 <= n0 < 64 && 0 <= n1 < 64 && 0 <= n2 < 64 && 0 <= n3 < 64
            && n0 * 4 + n1 / 16 == a && n1 % 16 * 16 + n2 / 4 == b && n2 % 4 * 64 + n3 == c
  {
    assert b / 16 < 16 && c / 64 < 4;
  }

  lemma ScanFour(strict: bool, n0: Sextet, n1: Sextet, n2: Sextet, n3: Sextet, s: string)
    ensures Scan(strict, [Symbol(n0)] + ([Symbol(n1)] + ([Symbol(n2)] + ([Symbol(n3)] + s))), 0, 0, 0)
         == Emit(n0 * 4 + n1 / 16, Emit(n1 % 16 * 16 + n2 / 4, Emit(n2 % 4 * 64 + n3, Scan(strict, s, 0, 0, 0))))
  {
    var s3 := [Symbol(n3)] + s;
    var s2 := [Symbol(n2)] + s3;
    assert Scan(strict, s2, 2, n1 % 16, 0)
        == Emit(n1 % 16 * 16 + n2 / 4, Emit(n2 % 4 * 64 + n3, Scan(strict, s, 0, 0, 0))) by {
      ScanData(strict, n2, s3, n1 % 16);
      ScanData(strict, n3, s, n2 % 4);
    }
    ScanData(strict, n0, [Symbol(n1)] + s2, 0);
    ScanData(strict, n1, s2, n0);
  }

  lemma FourSymbols(a: char, b: char, c: char, d: char, s: string)
    ensures [a, b, c, d] + s == [a] + ([b] + ([c] + ([d] + s)))
  {
  }

  lemma GroupRoundTrip(strict: bool, a: Byte, b: Byte, c: Byte, s: string)
    ensures Scan(strict, EncodeGroup(a, b, c) + s, 0, 0, 0) == Emit(a, Emit(b, Emit(c, Scan(strict, s, 0, 0, 0))))
  {
    GroupBits(a, b, c);
    var n0: Sextet, n1: Sextet, n2: Sextet, n3: Sextet :=
      a / 4, a % 4 * 16 + b / 16, b % 16 * 4 + c / 64, c % 64;
    FourSymbols(Symbol(n0), Symbol(n1), Symbol(n2), Symbol(n3), s);
    ScanFour(strict, n0, n1, n2, n3, s);
  }

  lemma EmitThree(b: Bytes)
    requires |b| >= 3
    ensures Emit(b[0], Emit(b[1], Emit(b[2], Some(b[3..])))) == Some(b)
  {
    assert [b[0]] + ([b[1]] + ([b[2]] + b[3..])) == b;
  }

  lemma {:induction false} ScanEncoded(strict: bool, b: Bytes)
    ensures Scan(strict, B64Encode(b), 0, 0, 0) == Some(b)
  {
    if |b| == 0 {
    } else if |b| == 1 {
      TailOfOne(strict, b[0]);
      assert [b[0]] == b;
    } else if |b| == 2 {
      TailOfTwo(strict, b[0], b[1]);
      assert [b[0], b[1]] == b;
    } else {
      ScanEncoded(strict, b[3..]);
      GroupRoundTrip(strict, b[0], b[1], b[2], B64Encode(b[3..]));
      EmitThree(b);
    }
  }

  lemma ScanPads(strict: bool, left: nat)
    requires left < 4
    ensures Scan(strict, "==", 2, left, 0) == Some([]) && Scan(strict, "=", 3, left, 0) == Some([])
  {
    assert "=="[1..] == "=";
    assert Scan(strict, "=", 2, left, 1) == Some([]);
  }

  lemma TailOfOne(strict: bool, a: Byte)
    ensures Scan(strict, EncodeGroup(a, 0, 0)[..2] + "==", 0, 0, 0) == Some([a])
  {
    GroupBits(a, 0, 0);
    var n0: Sextet, n1: Sextet := a / 4, a % 4 * 16;
    var tail := [Symbol(n1)] + "==";
    assert EncodeGroup(a, 0, 0)[..2] + "==" == [Symbol(n0)] + tail;
    ScanData(strict, n0, tail, 0);
    ScanData(strict, n1, "==", n0);
    ScanPads(strict, n1 % 16);
    var none: Bytes := [];
    assert [a] + none == [a];
  }

  lemma AddTwo(a: Byte, b: Byte)
    ensures var none: Bytes := []; [a] + ([b] + none) == [a, b]
  {
  }

  lemma TailOfTwo(strict: bool, a: Byte, b: Byte)
    ensures Scan(strict, EncodeGroup(a, b, 0)[..3] + "=", 0, 0, 0) == Some([a, b])
  {
    GroupBits(a, b, 0);
    var n0: Sextet, n1: Sextet, n2: Sextet := a / 4, a % 4 * 16 + b / 16, b % 16 * 4;
    var tail2 := [Symbol(n2)] + "=";
    var tail1 := [Symbol(n1)] + tail2;
    assert EncodeGroup(a, b, 0)[..3] + "=" == [Symbol(n0)] + tail1;
    ScanData(strict, n0, tail1, 0);
    ScanData(strict, n1, tail2, n0);
    ScanData(strict, n2, "=", n1 % 16);
    ScanPads(strict, n2 % 4);
    AddTwo(a, b);
  }

  // Padding fills the last group, and no other character is '='.
  predicate IsData(s: string) {
    forall c :: c in s ==> Value(c).Some?
  }

  lemma GroupIsData(a: Byte, b: Byte, c: Byte)
    ensures IsData(EncodeGroup(a, b, c))
  {
    GroupBits(a, b, c);
    SymbolHasValue(a / 4);
    SymbolHasValue(a % 4 * 16 + b / 16);
    SymbolHasValue(b % 16 * 4 + c / 64);
    SymbolHasValue(c % 64);
  }

  lemma {:induction false} EncodedLength(b: Bytes) returns (groups: nat)
    ensures |B64Encode(b)| == 4 * groups
  {
    if |b| < 3 {
      groups := if |b| == 0 then 0 else 1;
    } else {
      groups := EncodedLength(b[3..]);
      groups := groups + 1;
    }
  }

  lemma PrependData(group: string, data: string, n: nat) returns (both: string)
    requires IsData(group) && IsData(data) && group != ""
    ensures IsData(both) && both != "" && group + (data + Fill(n)) == both + Fill(n)
  {
    both := group + data;
  }

  lemma TailShape(b: Bytes) returns (data: string, n: nat)
    requires 0 < |b| < 3
    ensures 0 < n <= 2 && B64Encode(b) == data + Fill(n) && IsData(data) && data != ""
  {
    var c: Byte := if |b| == 1 then 0 else b[1];
    GroupIsData(b[0], c, 0);
    var group := EncodeGroup(b[0], c, 0);
    data, n := group[..|b| + 1], 3 - |b|;
    assert Fill(2) == "==" && Fill(1) == "=";
    assert forall x :: x in data ==> x in group;
  }

  lemma {:induction false} EncodedShape(b: Bytes) returns (data: string, n: nat)
    ensures n <= 2 && B64Encode(b) == data + Fill(n) && IsData(data)
    ensures |b| > 0 ==> data != ""
  {
    if |b| == 0 {
      data, n := "", 0;
    } else if |b| < 3 {
      data, n := TailShape(b);
    } else {
      data, n := EncodedShape(b[3..]);
      GroupIsData(b[0], b[1], b[2]);
      data := PrependData(EncodeGroup(b[0], b[1], b[2]), data, n);
    }
  }

  lemma {:induction false} UnpadData(data: string, n: nat)
    requires forall c :: c in data ==> c != '='
    ensures Unpad(data + Fill(n)) == data
  {
    var s := data + Fill(n);
    if n == 0 {
      assert s == data;
      assert data == "" || data[|data| - 1] in data;
    } else {
      assert s[..|s| - 1] == data + Fill(n - 1);
      UnpadData(data, n - 1);
    }
  }

  // Floored remainder of a negated length, in whole groups and what is left of one.
  lemma NegatedRemainder(groups: int, r: int)
    requires 0 <= r < 4
    ensures -(4 * groups + r) % 4 == if r == 0 then 0 else 4 - r
  {
  }

  lemma WholeGroups(groups: int, k: int)
    ensures (4 * groups + k) % 4 == k % 4
  {
  }

  lemma PadsFill(length: nat, n: nat)
    requires n <= 2 && (length + n) % 4 == 0
    ensures PythonPads(length) == LuaPads(length) == ScriptPads(length) == n
  {
    var groups, r := length / 4, length % 4;
    assert length == 4 * groups + r;
    WholeGroups(groups, r + n);
    assert r + n == 0 || r + n == 4;
    NegatedRemainder(groups, r);
  }

  lemma PadRestores(data: string, n: nat)
    requires n <= 2 && (|data| + n) % 4 == 0
    ensures Pad(data) == data + Fill(LuaPads(|data|)) == data + Fill(ScriptPads(|data|)) == data + Fill(n)
  {
    PadsFill(|data|, n);
  }

  // ----- the laws -----

  /** Both forms of b64decode undo b64encode. */
  lemma DecodeEncoded(strict: bool, b: Bytes)
    ensures B64Decode(strict, B64Encode(b)) == Some(b)
  {
    ScanEncoded(strict, b);
    var data, n := EncodedShape(b);
    forall c | c in B64Encode(b)
      ensures c as int < 0x80
    {
      assert c in data || c in Fill(n);
    }
  }

  lemma UrlKeepsData(data: string)
    requires IsData(data)
    ensures forall c :: c in Map(ToUrl, data) ==> c != '='
    ensures Map(FromUrl, Map(ToUrl, data)) == data
  {
    var safe := Map(ToUrl, data);
    forall i | 0 <= i < |data|
      ensures safe[i] != '=' && FromUrl(safe[i]) == data[i]
    {
      assert data[i] in data;
    }
  }

  lemma {:induction false} MapAppends(f: char -> char, s: string, t: string)
    ensures Map(f, s + t) == Map(f, s) + Map(f, t)
  {
    var r := Map(f, s + t);
    assert forall i :: 0 <= i < |s + t| ==> r[i] == f((s + t)[i]);
    assert |r| == |Map(f, s) + Map(f, t)|;
  }

  lemma MapKeepsFill(f: char -> char, n: nat)
    requires f('=') == '='
    ensures Map(f, Fill(n)) == Fill(n)
  {
  }

  // The url-safe text is data of its own alphabet, then the padding.
  lemma UrlShape(b: Bytes) returns (safe: string, n: nat)
    ensures n <= 2 && (|safe| + n) % 4 == 0 && UrlEncode(b) == safe + Fill(n)
    ensures forall c :: c in safe ==> c != '='
    ensures Map(FromUrl, safe + Fill(n)) == B64Encode(b)
  {
    var data: string;
    data, n := EncodedShape(b);
    var groups := EncodedLength(b);
    safe := Map(ToUrl, data);
    UrlKeepsData(data);
    MapAppends(ToUrl, data, Fill(n));
    MapKeepsFill(ToUrl, n);
    MapAppends(FromUrl, safe, Fill(n));
    MapKeepsFill(FromUrl, n);
  }

  /**
   urlsafe_b64encode, strip the padding, put it back by any of the three formulas, urlsafe_b64decode: the
   bytes are back.
   */
  lemma UrlRoundTrip(b: Bytes)
    ensures Pad(Unpad(UrlEncode(b))) == UrlEncode(b)
    ensures var segment := Unpad(UrlEncode(b));
            && segment + Fill(LuaPads(|segment|)) == UrlEncode(b)
            && segment + Fill(ScriptPads(|segment|)) == UrlEncode(b)
    ensures UrlDecode(UrlEncode(b)) == Some(b)
  {
    var safe, n := UrlShape(b);
    UnpadData(safe, n);
    PadRestores(safe, n);
    DecodeEncoded(false, b);
  }

  // What base64url text is made of: no dot, no '=', all ASCII.
  predicate IsUrlText(s: string) {
    forall c :: c in s ==> 'A' <= c <= 'Z' || 'a' <= c <= 'z' || '0' <= c <= '9' || c == '-' || c == '_'
  }

  lemma UnpaddedIsUrlText(b: Bytes)
    ensures IsUrlText(Unpad(UrlEncode(b)))
    ensures |b| > 0 ==> Unpad(UrlEncode(b)) != ""
  {
    var data, n := EncodedShape(b);
    var safe := Map(ToUrl, data);
    assert UrlEncode(b) == safe + Fill(n);
    forall c | c in safe
      ensures IsUrlText([c]) && c != '='
    {
      var i :| 0 <= i < |safe| && safe[i] == c;
      assert data[i] in data;
    }
    UnpadData(safe, n);
    forall c | c in safe
      ensures 'A' <= c <= 'Z' || 'a' <= c <= 'z' || '0' <= c <= '9' || c == '-' || c == '_'
    {
      assert c in [c];
    }
  }
}
