/** `str(n)` and `int(text)` for integers. */
module Decimals {
  import opened Letters
  import opened Options

  predicate IsDigit(c: char) {
    '0' <= c <= '9'
  }

  function Digit(n: nat): char
    requires n < 10
  {
    ('0' as int + n) as char
  }

  function DigitValue(c: char): nat
    requires IsDigit(c)
  {
    c as int - '0' as int
  }

  // The digits of n, followed by `tail`. Every printer here takes the text that
  // comes after, so that a parser's lemma can speak of the text it leaves.
  function ShowNat(n: nat, tail: string): string {
    if n < 10 then [Digit(n)] + tail else ShowNat(n / 10, [Digit(n % 10)] + tail)
  }

  function ShowInt(n: int, tail: string): string {
    if n < 0 then "-" + ShowNat(-n, tail) else ShowNat(n, tail)
  }

  // Reads digits as long as there are any.
  function ReadDigits(s: string, acc: nat): (nat, string)
    decreases |s|
  {
    if s != "" && IsDigit(s[0]) then ReadDigits(s[1..], 10 * acc + DigitValue(s[0])) else (acc, s)
  }

  predicate StartsWithDigit(s: string) {
    s != "" && IsDigit(s[0])
  }

  lemma {:induction false} ReadShown(n: nat, tail: string)
    ensures ReadDigits(ShowNat(n, tail), 0) == ReadDigits(tail, n)
  {
    if n < 10 {
      assert ShowNat(n, tail)[1..] == tail;
    } else {
      var d := [Digit(n % 10)];
      ReadShown(n / 10, d + tail);
      assert (d + tail)[1..] == tail;
    }
  }

  lemma {:induction false} ShownStart(n: nat, tail: string)
    ensures ShowNat(n, tail) != "" && IsDigit(ShowNat(n, tail)[0])
    ensures ShowNat(n, tail)[0] == '0' <==> n == 0
  {
    if n >= 10 { ShownStart(n / 10, [Digit(n % 10)] + tail); }
  }

  lemma {:induction false} ShownDigits(n: nat, tail: string)
    ensures exists digits: string :: digits != "" && ShowNat(n, tail) == digits + tail
                                     && forall c :: c in digits ==> IsDigit(c)
  {
    if n < 10 {
      assert forall c :: c in [Digit(n)] ==> IsDigit(c);
    } else {
      var d := [Digit(n % 10)];
      ShownDigits(n / 10, d + tail);
      var digits: string :| digits != "" && ShowNat(n, tail) == digits + (d + tail)
                            && forall c :: c in digits ==> IsDigit(c);
      assert digits + (d + tail) == (digits + d) + tail;
      assert forall c :: c in digits + d ==> IsDigit(c);
    }
  }

  lemma {:induction false} ShowNatSplits(n: nat, tail: string)
    ensures ShowNat(n, tail) == ShowNat(n, "") + tail
  {
    if n >= 10 {
      var d := [Digit(n % 10)];
      ShowNatSplits(n / 10, d + tail);
      ShowNatSplits(n / 10, d);
      assert d + "" == d;
      assert ShowNat(n / 10, "") + (d + tail) == ShowNat(n / 10, "") + d + tail;
    }
  }

  function Text(n: int): string {
    ShowInt(n, "")
  }

  /** str(n): the decimal digits, most significant first, after a minus sign if n is negative. */
  lemma TextIsDecimal(n: nat)
    ensures n < 10 ==> Text(n) == [DIGITS[n]]
    ensures n >= 10 ==> Text(n) == Text(n / 10) + [DIGITS[n % 10]]
    ensures n > 0 ==> Text(-(n as int)) == "-" + Text(n)
  {
    assert Digit(n % 10) == DIGITS[n % 10];
    if n >= 10 {
      ShowNatSplits(n / 10, [Digit(n % 10)]);
      assert [Digit(n % 10)] + "" == [Digit(n % 10)];
    }
  }

  // ----- int(text) for ASCII text: outer blanks, a sign, digits with single underscores between them -----

  predicate IsBlank(c: char) {
    c == ' ' || '\t' <= c <= '\r' || (28 as char) <= c <= (31 as char)
  }

  function TrimLeft(s: string): (r: string)
    ensures |r| <= |s|
  {
    if s != "" && IsBlank(s[0]) then TrimLeft(s[1..]) else s
  }

  function TrimRight(s: string): string {
    if s != "" && IsBlank(s[|s| - 1]) then TrimRight(s[..|s| - 1]) else s
  }

  function DigitsToInt(s: string, acc: nat): Option<int> {
    if s == "" || !IsDigit(s[0]) then None
    else
      var acc' := 10 * acc + DigitValue(s[0]);
      if |s| == 1 then Some(acc')
      else if s[1] == '_' then DigitsToInt(s[2..], acc')
      else DigitsToInt(s[1..], acc')
  }

  function Parse(text: string): Option<int> {
    var s := TrimRight(TrimLeft(text));
    if s == "" then None
    else if s[0] == '-' then
      match DigitsToInt(s[1..], 0) case None => None case Some(n) => Some(-n)
    else if s[0] == '+' then
      DigitsToInt(s[1..], 0)
    else
      DigitsToInt(s, 0)
  }

  lemma {:induction false} DigitsAreRead(s: string, acc: nat)
    requires s != "" && forall c :: c in s ==> IsDigit(c)
    ensures DigitsToInt(s, acc) == Some(ReadDigits(s, acc).0)
  {
    if |s| > 1 {
      assert s[1] in s;
      DigitsAreRead(s[1..], 10 * acc + DigitValue(s[0]));
    }
  }

  /** int(str(n)) == n. */
  lemma ParseText(n: int)
    ensures Parse(Text(n)) == Some(n)
  {
    var m: nat := if n < 0 then -n else n;
    var s := ShowNat(m, "");
    ShownDigits(m, "");
    var digits: string :| digits != "" && s == digits + "" && forall c :: c in digits ==> IsDigit(c);
    assert s == digits;
    assert s[0] in s && s[|s| - 1] in s;
    DigitsAreRead(s, 0);
    ReadShown(m, "");
    var text := Text(n);
    assert !IsBlank(text[0]) && text[|text| - 1] == s[|s| - 1];
    if n < 0 { assert text[1..] == s; }
  }
}
