/**
 The text of a JSON value, RFC 8259 sections 2 to 7, as `json.dumps` writes it without blanks and
 `json.loads` reads it. Numbers with a fraction or an exponent are not read.
 */
module JsonText {
  import opened Options
  import opened Decimals
  import opened Json

  // ----- strings -----

  function HexDigit(n: nat): char
    requires n < 16
  {
    if n < 10 then ('0' as int + n) as char else ('a' as int + n - 10) as char
  }

  function HexValue(c: char): Option<nat> {
    if '0' <= c <= '9' then Some(c as int - '0' as int)
    else if 'a' <= c <= 'f' then Some(c as int - 'a' as int + 10)
    else if 'A' <= c <= 'F' then Some(c as int - 'A' as int + 10)
    else None
  }

  function ShowUnit(n: nat, tail: string): string
    requires n < 0x10000
  {
    ['\\', 'u', HexDigit(n / 16 / 16 / 16), HexDigit(n / 16 / 16 % 16), HexDigit(n / 16 % 16), HexDigit(n % 16)] + tail
  }

  // Code points above U+FFFF become a surrogate pair.
  function ShowEscaped(n: nat, tail: string): string
    requires n < 0x110000
  {
    if n < 0x10000 then ShowUnit(n, tail)
    else ShowUnit(0xD800 + (n - 0x10000) / 0x400, ShowUnit(0xDC00 + (n - 0x10000) % 0x400, tail))
  }

  // ensure_ascii escapes everything outside ' '..'~'; otherwise only controls, quote and backslash are escaped.
  function ShowChar(ascii: bool, c: char, tail: string): string {
    if c == '"' then ['\\', '"'] + tail
    else if c == '\\' then ['\\', '\\'] + tail
    else if c == '\n' then ['\\', 'n'] + tail
    else if c == '\r' then ['\\', 'r'] + tail
    else if c == '\t' then ['\\', 't'] + tail
    else if c as int == 8 then ['\\', 'b'] + tail
    else if c as int == 12 then ['\\', 'f'] + tail
    else if c < ' ' || (ascii && c > '~') then ShowEscaped(c as int, tail)
    else [c] + tail
  }

  function ShowChars(ascii: bool, s: string, tail: string): string {
    if s == "" then "\"" + tail else ShowChar(ascii, s[0], ShowChars(ascii, s[1..], tail))
  }

  function ShowString(ascii: bool, s: string, tail: string): string {
    "\"" + ShowChars(ascii, s, tail)
  }

  // Four hex digits after "\u".
  function ReadUnit(s: string): Option<nat> {
    if |s| < 6 || s[0] != '\\' || s[1] != 'u' then None
    else
      match (HexValue(s[2]), HexValue(s[3]), HexValue(s[4]), HexValue(s[5]))
      case (Some(a), Some(b), Some(c), Some(d)) => Some(a * 4096 + b * 256 + c * 16 + d)
      case _ => None
  }

  // An escaped code point; a surrogate that is not half of a pair is refused.
  function ReadEscaped(s: string): (r: Option<(char, string)>)
    ensures r.Some? ==> |r.value.1| < |s|
  {
    match ReadUnit(s)
    case None => None
    case Some(n) =>
      if n < 0xD800 || 0xE000 <= n < 0x10000 then Some((n as char, s[6..]))
      else if 0xD800 <= n < 0xDC00 then
        match ReadUnit(s[6..])
        case None => None
        case Some(m) =>
          if 0xDC00 <= m < 0xE000
          then Some(((0x10000 + (n - 0xD800) * 0x400 + (m - 0xDC00)) as char, s[12..]))
          else None
      else None
  }

  function ReadChar(s: string): (r: Option<(char, string)>)
    requires s != ""
    ensures r.Some? ==> |r.value.1| < |s|
  {
    if s[0] == '\\' then
      if |s| < 2 then None
      else if s[1] == 'u' then ReadEscaped(s)
      else if s[1] == '"' then Some(('"', s[2..]))
      else if s[1] == '\\' then Some(('\\', s[2..]))
      else if s[1] == '/' then Some(('/', s[2..]))
      else if s[1] == 'b' then Some((8 as char, s[2..]))
      else if s[1] == 'f' then Some((12 as char, s[2..]))
      else if s[1] == 'n' then Some(('\n', s[2..]))
      else if s[1] == 'r' then Some(('\r', s[2..]))
      else if s[1] == 't' then Some(('\t', s[2..]))
      else None
    else if s[0] < ' ' then None
    else Some((s[0], s[1..]))
  }

  // The rest of a string whose opening quote has been read.
  function ReadChars(s: string): (r: Option<(string, string)>)
    ensures r.Some? ==> |r.value.1| < |s|
    decreases |s|
  {
    if s == "" then None
    else if s[0] == '"' then Some(("", s[1..]))
    else
      match ReadChar(s)
      case None => None
      case Some((c, rest)) =>
        match ReadChars(rest)
        case None => None
        case Some((cs, end)) => Some(([c] + cs, end))
  }

  lemma HexRoundTrip(n: nat)
    requires n < 16
    ensures HexValue(HexDigit(n)) == Some(n)
  {
  }

  lemma UnitRoundTrip(n: nat, tail: string)
    requires n < 0x10000
    ensures ReadUnit(ShowUnit(n, tail)) == Some(n)
    ensures ShowUnit(n, tail)[6..] == tail
  {
    HexRoundTrip(n / 16 / 16 / 16);
    HexRoundTrip(n / 16 / 16 % 16);
    HexRoundTrip(n / 16 % 16);
    HexRoundTrip(n % 16);
  }

  lemma ReadsUnit(s: string, c: char, tail: string)
    requires ReadUnit(s) == Some(c as int) && c as int < 0x10000 && |s| >= 6 && s[6..] == tail
    ensures ReadEscaped(s) == Some((c, tail))
  {
  }

  lemma ReadsPair(s: string, high: nat, low: nat, c: char, tail: string)
    requires c as int >= 0x10000
    requires high == 0xD800 + (c as int - 0x10000) / 0x400 && low == 0xDC00 + (c as int - 0x10000) % 0x400
    requires |s| >= 12 && ReadUnit(s) == Some(high) && ReadUnit(s[6..]) == Some(low) && s[6..][6..] == tail
    ensures ReadEscaped(s) == Some((c, tail))
  {
    assert s[12..] == s[6..][6..];
    assert (high - 0xD800) * 0x400 + (low - 0xDC00) == c as int - 0x10000;
  }

  lemma EscapedRoundTrip(c: char, tail: string)
    ensures ReadEscaped(ShowEscaped(c as int, tail)) == Some((c, tail))
  {
    var n := c as int;
    var s := ShowEscaped(n, tail);
    if n < 0x10000 {
      UnitRoundTrip(n, tail);
      ReadsUnit(s, c, tail);
    } else {
      var high, low := 0xD800 + (n - 0x10000) / 0x400, 0xDC00 + (n - 0x10000) % 0x400;
      UnitRoundTrip(high, ShowUnit(low, tail));
      UnitRoundTrip(low, tail);
      ReadsPair(s, high, low, c, tail);
    }
  }

  lemma CharRoundTrip(ascii: bool, c: char, tail: string)
    ensures ShowChar(ascii, c, tail) != "" && ShowChar(ascii, c, tail)[0] != '"'
    ensures ReadChar(ShowChar(ascii, c, tail)) == Some((c, tail))
  {
    EscapedRoundTrip(c, tail);
  }

  lemma {:induction false} CharsRoundTrip(ascii: bool, s: string, tail: string)
    ensures ReadChars(ShowChars(ascii, s, tail)) == Some((s, tail))
  {
    if s != "" {
      CharsRoundTrip(ascii, s[1..], tail);
      CharRoundTrip(ascii, s[0], ShowChars(ascii, s[1..], tail));
      assert [s[0]] + s[1..] == s;
    }
  }

  // ----- values -----

  function Show(ascii: bool, v: Json, tail: string): string
    decreases v, 1
  {
    match v
    case Null => "null" + tail
    case Bool(b) => if b then "true" + tail else "false" + tail
    case Int(n) => ShowInt(n, tail)
    case Str(s) => ShowString(ascii, s, tail)
    case Arr(items) => "[" + (if items == [] then "]" + tail else ShowItems(ascii, items, tail))
    case Obj(ms) => "{" + (if ms == [] then "}" + tail else ShowMembers(ascii, ms, tail))
  }

  function ShowItems(ascii: bool, items: seq<Json>, tail: string): string
    requires items != []
    decreases items, 0
  {
    Show(ascii, items[0], if |items| == 1 then "]" + tail else "," + ShowItems(ascii, items[1..], tail))
  }

  function ShowMembers(ascii: bool, ms: seq<Member>, tail: string): string
    requires ms != []
    decreases ms, 0
  {
    ShowString(ascii, ms[0].key,
               ":" + Show(ascii, ms[0].value,
                          if |ms| == 1 then "}" + tail else "," + ShowMembers(ascii, ms[1..], tail)))
  }

  function SkipBlanks(s: string): (r: string)
    ensures |r| <= |s|
  {
    if s != "" && s[0] in {' ', '\t', '\n', '\r'} then SkipBlanks(s[1..]) else s
  }

  // No leading zeros: after a first '0' the number ends.
  function ReadNumber(s: string): (r: (nat, string))
    requires StartsWithDigit(s)
    ensures |r.1| < |s|
  {
    if s[0] == '0' then (0, s[1..])
    else
      ReadDigitsShrinks(s[1..], DigitValue(s[0]));
      ReadDigits(s, 0)
  }

  lemma {:induction false} ReadDigitsShrinks(s: string, acc: nat)
    ensures |ReadDigits(s, acc).1| <= |s|
    decreases |s|
  {
    if s != "" && IsDigit(s[0]) { ReadDigitsShrinks(s[1..], 10 * acc + DigitValue(s[0])); }
  }

  // The pairs in the order read, as dict(pairs) keeps them: the last value of a key wins.
  function DictOf(pairs: seq<Member>): seq<Member> {
    if pairs == [] then [] else Put(DictOf(pairs[..|pairs| - 1]), pairs[|pairs| - 1])
  }

  function Read(s: string): (r: Option<(Json, string)>)
    ensures r.Some? ==> |r.value.1| < |s|
    decreases |s|, 0
  {
    if s == "" then None
    else if s[0] == '"' then
      match ReadChars(s[1..]) case None => None case Some((text, rest)) => Some((Str(text), rest))
    else if s[0] == '[' then
      var t := SkipBlanks(s[1..]);
      if t != "" && t[0] == ']' then Some((Arr([]), t[1..]))
      else match ReadItems(t) case None => None case Some((items, rest)) => Some((Arr(items), rest))
    else if s[0] == '{' then
      var t := SkipBlanks(s[1..]);
      if t != "" && t[0] == '}' then Some((Obj([]), t[1..]))
      else match ReadMembers(t) case None => None case Some((ms, rest)) => Some((Obj(DictOf(ms)), rest))
    else if "null" <= s then Some((Null, s[4..]))
    else if "true" <= s then Some((Bool(true), s[4..]))
    else if "false" <= s then Some((Bool(false), s[5..]))
    else if s[0] == '-' && StartsWithDigit(s[1..]) then
      var (n, rest) := ReadNumber(s[1..]);
      Some((Int(-(n as int)), rest))
    else if IsDigit(s[0]) then
      var (n, rest) := ReadNumber(s);
      Some((Int(n), rest))
    else None
  }

  // One or more values up to the closing bracket.
  function ReadItems(s: string): (r: Option<(seq<Json>, string)>)
    ensures r.Some? ==> |r.value.1| < |s|
    decreases |s|, 1
  {
    match Read(s)
    case None => None
    case Some((v, after)) =>
      var t := SkipBlanks(after);
      if t == "" then None
      else if t[0] == ']' then Some(([v], t[1..]))
      else if t[0] == ',' then
        match ReadItems(SkipBlanks(t[1..])) case None => None case Some((vs, rest)) => Some(([v] + vs, rest))
      else None
  }

  function ReadMember(s: string): (r: Option<(Member, string)>)
    ensures r.Some? ==> |r.value.1| < |s|
    decreases |s|, 1
  {
    if s == "" || s[0] != '"' then None
    else
      match ReadChars(s[1..])
      case None => None
      case Some((key, afterKey)) =>
        var c := SkipBlanks(afterKey);
        if c == "" || c[0] != ':' then None
        else
          match Read(SkipBlanks(c[1..])) case None => None case Some((v, after)) => Some((Member(key, v), after))
  }

  // One or more members up to the closing brace.
  function ReadMembers(s: string): (r: Option<(seq<Member>, string)>)
    ensures r.Some? ==> |r.value.1| < |s|
    decreases |s|, 2
  {
    match ReadMember(s)
    case None => None
    case Some((m, after)) =>
      var t := SkipBlanks(after);
      if t == "" then None
      else if t[0] == '}' then Some(([m], t[1..]))
      else if t[0] == ',' then
        match ReadMembers(SkipBlanks(t[1..])) case None => None case Some((ms, rest)) => Some(([m] + ms, rest))
      else None
  }

  // ----- json.dumps and json.loads -----

  function Dumps(ascii: bool, v: Json): string {
    Show(ascii, Sorted(v), "")
  }

  function Loads(text: string): Option<Json> {
    match Read(SkipBlanks(text))
    case None => None
    case Some((v, rest)) => if SkipBlanks(rest) == "" then Some(v) else None
  }

  // ----- reading what was shown -----

  // What may follow a value: nothing that would lengthen a number.
  predicate Ends(tail: string) {
    tail == "" || tail[0] in {',', ']', '}'}
  }

  lemma {:induction false} PutNewKey(ms: seq<Member>, m: Member)
    requires !HasKey(ms, m.key)
    ensures Put(ms, m) == ms + [m]
  {
    if ms != [] {
      assert ms[0].key != m.key;
      assert forall i :: 0 <= i < |ms[1..]| ==> ms[1..][i].key == ms[i + 1].key;
      PutNewKey(ms[1..], m);
      assert [ms[0]] + (ms[1..] + [m]) == ms + [m];
    }
  }

  lemma {:induction false} DictOfDistinct(ms: seq<Member>)
    requires DistinctKeys(ms)
    ensures DictOf(ms) == ms
  {
    if ms != [] {
      var n := |ms| - 1;
      DictOfDistinct(ms[..n]);
      PutNewKey(ms[..n], ms[n]);
    }
  }

  // The first character of a shown value is no blank and no closing bracket.
  predicate OpensValue(s: string) {
    s != "" && s[0] !in {' ', '\t', '\n', '\r', ']', '}', ','}
  }

  lemma ShowOpens(ascii: bool, v: Json, tail: string)
    ensures OpensValue(Show(ascii, v, tail))
  {
    if v.Int? { ShownStart(if v.n < 0 then -v.n else v.n, tail); }
  }

  lemma IntRoundTrip(n: int, tail: string)
    requires Ends(tail)
    ensures Read(ShowInt(n, tail)) == Some((Int(n), tail))
  {
    var m: nat := if n < 0 then -n else n;
    var s := ShowNat(m, tail);
    ShownStart(m, tail);
    ReadShown(m, tail);
    if n < 0 { assert ("-" + s)[1..] == s; }
  }

  lemma ReadShowArr(ascii: bool, items: seq<Json>, tail: string)
    requires items == [] || ReadItems(ShowItems(ascii, items, tail)) == Some((items, tail))
    ensures Read(Show(ascii, Arr(items), tail)) == Some((Arr(items), tail))
  {
    var s := Show(ascii, Arr(items), tail);
    if items == [] {
      assert s[1..] == "]" + tail;
    } else {
      assert s[1..] == ShowItems(ascii, items, tail);
      ShowOpens(ascii, items[0], if |items| == 1 then "]" + tail else "," + ShowItems(ascii, items[1..], tail));
    }
  }

  lemma ReadShowObj(ascii: bool, ms: seq<Member>, tail: string)
    requires IsValue(Obj(ms))
    requires ms == [] || (&& ReadMembers(ShowMembers(ascii, ms, tail)) == Some((ms, tail))
                          && SkipBlanks(ShowMembers(ascii, ms, tail)) == ShowMembers(ascii, ms, tail))
    ensures Read(Show(ascii, Obj(ms), tail)) == Some((Obj(ms), tail))
  {
    var s := Show(ascii, Obj(ms), tail);
    if ms == [] {
      assert s[1..] == "}" + tail;
    } else {
      assert s[1..] == ShowMembers(ascii, ms, tail);
      DictOfDistinct(ms);
    }
  }

  lemma {:induction false} ReadShow(ascii: bool, v: Json, tail: string)
    requires IsValue(v) && Ends(tail)
    ensures Read(Show(ascii, v, tail)) == Some((v, tail))
    decreases v, 1
  {
    var s := Show(ascii, v, tail);
    match v
    case Null =>
    case Bool(_) =>
    case Int(n) => IntRoundTrip(n, tail);
    case Str(text) =>
      assert s[1..] == ShowChars(ascii, text, tail);
      CharsRoundTrip(ascii, text, tail);
    case Arr(items) =>
      if items != [] { ReadShowItems(ascii, items, tail); }
      ReadShowArr(ascii, items, tail);
    case Obj(ms) =>
      if ms != [] { ReadShowMembers(ascii, ms, tail); }
      ReadShowObj(ascii, ms, tail);
  }

  lemma {:induction false} ReadShowItems(ascii: bool, items: seq<Json>, tail: string)
    requires items != [] && forall i :: 0 <= i < |items| ==> IsValue(items[i])
    ensures ReadItems(ShowItems(ascii, items, tail)) == Some((items, tail))
    decreases items, 0
  {
    if |items| == 1 {
      ReadShow(ascii, items[0], "]" + tail);
      assert ("]" + tail)[1..] == tail && [items[0]] == items;
    } else {
      var rest := ShowItems(ascii, items[1..], tail);
      ReadShow(ascii, items[0], "," + rest);
      assert ("," + rest)[1..] == rest;
      ShowOpens(ascii, items[1], if |items[1..]| == 1 then "]" + tail else "," + ShowItems(ascii, items[1..][1..], tail));
      assert SkipBlanks(rest) == rest;
      ReadShowItems(ascii, items[1..], tail);
      assert [items[0]] + items[1..] == items;
    }
  }

  lemma ReadShowMember(ascii: bool, m: Member, after: string)
    requires IsValue(m.value) && Ends(after)
    ensures var s := ShowString(ascii, m.key, ":" + Show(ascii, m.value, after));
            ReadMember(s) == Some((m, after)) && SkipBlanks(s) == s
    decreases m, 2
  {
    var shown := Show(ascii, m.value, after);
    CharsRoundTrip(ascii, m.key, ":" + shown);
    assert ShowString(ascii, m.key, ":" + shown)[1..] == ShowChars(ascii, m.key, ":" + shown);
    assert (":" + shown)[1..] == shown;
    ShowOpens(ascii, m.value, after);
    ReadShow(ascii, m.value, after);
  }

  lemma ReadMembersMore(s: string, m: Member, ms: seq<Member>, rest: string, tail: string)
    requires ReadMember(s) == Some((m, "," + rest)) && SkipBlanks(rest) == rest
    requires ReadMembers(rest) == Some((ms, tail))
    ensures ReadMembers(s) == Some(([m] + ms, tail))
  {
    assert ("," + rest)[1..] == rest;
  }

  lemma {:induction false} ReadShowMembers(ascii: bool, ms: seq<Member>, tail: string)
    requires ms != [] && forall i :: 0 <= i < |ms| ==> IsValue(ms[i].value)
    ensures ReadMembers(ShowMembers(ascii, ms, tail)) == Some((ms, tail))
    ensures SkipBlanks(ShowMembers(ascii, ms, tail)) == ShowMembers(ascii, ms, tail)
    decreases ms, 0
  {
    if |ms| == 1 {
      ReadShowMember(ascii, ms[0], "}" + tail);
      assert ("}" + tail)[1..] == tail && [ms[0]] == ms;
    } else {
      var rest := ShowMembers(ascii, ms[1..], tail);
      ReadShowMembers(ascii, ms[1..], tail);
      ReadShowMember(ascii, ms[0], "," + rest);
      ReadMembersMore(ShowMembers(ascii, ms, tail), ms[0], ms[1..], rest, tail);
      assert [ms[0]] + ms[1..] == ms;
    }
  }

  // ----- the laws of canonical JSON -----

  /** json.loads(json.dumps(v)) is v, in either escape mode. */
  lemma LoadsDumps(ascii: bool, v: Json)
    requires IsValue(v)
    ensures Loads(Dumps(ascii, v)) == Some(Sorted(v))
    ensures Same(v, Sorted(v))
  {
    SortedIsValue(v);
    ReadShow(ascii, Sorted(v), "");
    ShowOpens(ascii, Sorted(v), "");
    SortedIsSame(v);
  }

  /** The text forgets the insertion order of every dict, at every depth, and nothing else. */
  lemma DumpsIsCanonical(ascii: bool, a: Json, b: Json)
    requires IsValue(a) && IsValue(b)
    ensures Dumps(ascii, a) == Dumps(ascii, b) <==> Same(a, b)
  {
    SortedDecidesSame(a, b);
    LoadsDumps(ascii, a);
    LoadsDumps(ascii, b);
  }
}
