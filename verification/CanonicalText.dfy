/**
 Canonical JSON spelled out piece by piece, with no parser in sight: what `json.dumps` writes with sorted keys,
 the separators "," and ":" and no blanks, in either escape mode.
 */
module CanonicalText {
  import opened Decimals
  import opened Json
  import opened JsonText
  import opened Letters

  // ----- characters -----

  function Hex4(n: nat): string
    requires n < 0x10000
  {
    [HEX[n / 4096], HEX[n / 256 % 16], HEX[n / 16 % 16], HEX[n % 16]]
  }

  // Code points above U+FFFF are written as the two halves of a surrogate pair.
  function Unicode(n: nat): string
    requires n < 0x110000
  {
    if n < 0x10000 then "\\u" + Hex4(n)
    else "\\u" + Hex4(0xD800 + (n - 0x10000) / 1024) + "\\u" + Hex4(0xDC00 + (n - 0x10000) % 1024)
  }

  function Escaped(ascii: bool, c: char): string {
    if c == '\"' then "\\\""
    else if c == '\\' then "\\\\"
    else if c as int == 0x08 then "\\b"
    else if c as int == 0x09 then "\\t"
    else if c as int == 0x0A then "\\n"
    else if c as int == 0x0C then "\\f"
    else if c as int == 0x0D then "\\r"
    else if c as int < 0x20 || (ascii && c as int > 0x7E) then Unicode(c as int)
    else [c]
  }

  function Body(ascii: bool, s: string): string {
    if s == "" then "" else Escaped(ascii, s[0]) + Body(ascii, s[1..])
  }

  function Quoted(ascii: bool, s: string): string {
    "\"" + Body(ascii, s) + "\""
  }

  // ----- values -----

  // ",".join(parts)
  function Joined(parts: seq<string>): string {
    if parts == [] then "" else if |parts| == 1 then parts[0] else parts[0] + "," + Joined(parts[1..])
  }

  function Plain(ascii: bool, v: Json): string
    decreases v, 1
  {
    match v
    case Null => "null"
    case Bool(b) => if b then "true" else "false"
    case Int(n) => Text(n)
    case Str(s) => Quoted(ascii, s)
    case Arr(items) => "[" + Joined(PlainItems(ascii, items)) + "]"
    case Obj(ms) => "{" + Joined(PlainMembers(ascii, ms)) + "}"
  }

  function PlainItems(ascii: bool, items: seq<Json>): (parts: seq<string>)
    ensures |parts| == |items|
    decreases items, 0
  {
    if items == [] then [] else [Plain(ascii, items[0])] + PlainItems(ascii, items[1..])
  }

  function PlainMembers(ascii: bool, ms: seq<Member>): (parts: seq<string>)
    ensures |parts| == |ms|
    decreases ms, 0
  {
    if ms == [] then []
    else [Quoted(ascii, ms[0].key) + ":" + Plain(ascii, ms[0].value)] + PlainMembers(ascii, ms[1..])
  }

  // At every depth the keys ascend by code point.
  ghost predicate KeysAscend(v: Json) {
    match v
    case Arr(items) => forall i :: 0 <= i < |items| ==> KeysAscend(items[i])
    case Obj(ms) =>
      && (forall i :: 0 <= i < |ms| ==> KeysAscend(ms[i].value))
      && (forall i, j :: 0 <= i < j < |ms| ==> Precedes(ms[i].key, ms[j].key))
    case _ => true
  }

  // ----- the printer writes that text -----

  lemma HexDigits(n: nat)
    requires n < 16
    ensures HexDigit(n) == HEX[n]
  {
  }

  lemma UnitIsHex(n: nat, tail: string)
    requires n < 0x10000
    ensures ShowUnit(n, tail) == "\\u" + Hex4(n) + tail
  {
    assert n / 16 / 16 == n / 256 && n / 16 / 16 / 16 == n / 4096;
    HexDigits(n / 4096);
    HexDigits(n / 256 % 16);
    HexDigits(n / 16 % 16);
    HexDigits(n % 16);
  }

  lemma PairIsHex(high: nat, low: nat, tail: string)
    requires high < 0x10000 && low < 0x10000
    ensures ShowUnit(high, ShowUnit(low, tail)) == "\\u" + Hex4(high) + "\\u" + Hex4(low) + tail
  {
    UnitIsHex(low, tail);
    UnitIsHex(high, ShowUnit(low, tail));
    assert "\\u" + Hex4(high) + ("\\u" + Hex4(low) + tail) == "\\u" + Hex4(high) + "\\u" + Hex4(low) + tail;
  }

  lemma EscapedIsUnicode(n: nat, tail: string)
    requires n < 0x110000
    ensures ShowEscaped(n, tail) == Unicode(n) + tail
  {
    if n < 0x10000 {
      UnitIsHex(n, tail);
    } else {
      PairIsHex(0xD800 + (n - 0x10000) / 1024, 0xDC00 + (n - 0x10000) % 1024, tail);
    }
  }

  lemma CharIsEscaped(ascii: bool, c: char, tail: string)
    ensures ShowChar(ascii, c, tail) == Escaped(ascii, c) + tail
  {
    EscapedIsUnicode(c as int, tail);
  }

  lemma {:induction false} CharsAreBody(ascii: bool, s: string, tail: string)
    ensures ShowChars(ascii, s, tail) == Body(ascii, s) + "\"" + tail
  {
    if s != "" {
      var rest := Body(ascii, s[1..]) + "\"" + tail;
      CharsAreBody(ascii, s[1..], tail);
      CharIsEscaped(ascii, s[0], rest);
      assert Escaped(ascii, s[0]) + rest == Body(ascii, s) + "\"" + tail;
    }
  }

  lemma StringIsQuoted(ascii: bool, s: string, tail: string)
    ensures ShowString(ascii, s, tail) == Quoted(ascii, s) + tail
  {
    CharsAreBody(ascii, s, tail);
    assert "\"" + (Body(ascii, s) + "\"" + tail) == Quoted(ascii, s) + tail;
  }

  lemma NumberIsText(n: int, tail: string)
    ensures ShowInt(n, tail) == Text(n) + tail
  {
    ShowNatSplits(if n < 0 then -n else n, tail);
  }

  lemma {:induction false} ShowIsPlain(ascii: bool, v: Json, tail: string)
    ensures Show(ascii, v, tail) == Plain(ascii, v) + tail
    decreases v, 1
  {
    match v
    case Null =>
    case Bool(_) =>
    case Int(n) => NumberIsText(n, tail);
    case Str(s) => StringIsQuoted(ascii, s, tail);
    case Arr(items) =>
      if items != [] { ItemsAreJoined(ascii, items, tail); }
      ArrIsPlain(ascii, items, tail);
    case Obj(ms) =>
      if ms != [] { MembersAreJoined(ascii, ms, tail); }
      ObjIsPlain(ascii, ms, tail);
  }

  lemma Bracketed(open: string, middle: string, close: string, tail: string)
    ensures open + (middle + close + tail) == open + middle + close + tail
  {
  }

  lemma ArrIsPlain(ascii: bool, items: seq<Json>, tail: string)
    requires items == [] || ShowItems(ascii, items, tail) == Joined(PlainItems(ascii, items)) + "]" + tail
    ensures Show(ascii, Arr(items), tail) == Plain(ascii, Arr(items)) + tail
  {
    Bracketed("[", Joined(PlainItems(ascii, items)), "]", tail);
  }

  lemma ObjIsPlain(ascii: bool, ms: seq<Member>, tail: string)
    requires ms == [] || ShowMembers(ascii, ms, tail) == Joined(PlainMembers(ascii, ms)) + "}" + tail
    ensures Show(ascii, Obj(ms), tail) == Plain(ascii, Obj(ms)) + tail
  {
    Bracketed("{", Joined(PlainMembers(ascii, ms)), "}", tail);
  }

  lemma JoinedMore(first: string, rest: seq<string>)
    requires rest != []
    ensures Joined([first] + rest) == first + "," + Joined(rest)
  {
    assert ([first] + rest)[1..] == rest;
  }

  lemma {:induction false} ItemsAreJoined(ascii: bool, items: seq<Json>, tail: string)
    requires items != []
    ensures ShowItems(ascii, items, tail) == Joined(PlainItems(ascii, items)) + "]" + tail
    decreases items, 0
  {
    var first := Plain(ascii, items[0]);
    if |items| == 1 {
      ShowIsPlain(ascii, items[0], "]" + tail);
      assert PlainItems(ascii, items) == [first];
    } else {
      ItemsAreJoined(ascii, items[1..], tail);
      var rest := Joined(PlainItems(ascii, items[1..]));
      ShowIsPlain(ascii, items[0], "," + (rest + "]" + tail));
      JoinedMore(first, PlainItems(ascii, items[1..]));
      JoinedAssociates(first, rest, "]", tail);
    }
  }

  lemma MemberIsPlain(ascii: bool, m: Member, tail: string)
    requires Show(ascii, m.value, tail) == Plain(ascii, m.value) + tail
    ensures ShowString(ascii, m.key, ":" + Show(ascii, m.value, tail))
         == Quoted(ascii, m.key) + ":" + Plain(ascii, m.value) + tail
  {
    StringIsQuoted(ascii, m.key, ":" + (Plain(ascii, m.value) + tail));
  }

  lemma JoinedAssociates(first: string, rest: string, close: string, tail: string)
    ensures first + ("," + (rest + close + tail)) == first + "," + rest + close + tail
  {
  }

  lemma {:induction false} MembersAreJoined(ascii: bool, ms: seq<Member>, tail: string)
    requires ms != []
    ensures ShowMembers(ascii, ms, tail) == Joined(PlainMembers(ascii, ms)) + "}" + tail
    decreases ms, 0
  {
    var m := ms[0];
    if |ms| == 1 {
      ShowIsPlain(ascii, m.value, "}" + tail);
      MemberIsPlain(ascii, m, "}" + tail);
      assert PlainMembers(ascii, ms) == [Quoted(ascii, m.key) + ":" + Plain(ascii, m.value)];
    } else {
      MembersAreJoined(ascii, ms[1..], tail);
      var rest := Joined(PlainMembers(ascii, ms[1..]));
      ShowIsPlain(ascii, m.value, "," + (rest + "}" + tail));
      MemberIsPlain(ascii, m, "," + (rest + "}" + tail));
      JoinedMore(Quoted(ascii, m.key) + ":" + Plain(ascii, m.value), PlainMembers(ascii, ms[1..]));
      JoinedAssociates(Quoted(ascii, m.key) + ":" + Plain(ascii, m.value), rest, "}", tail);
    }
  }

  lemma {:induction false} SortedAscends(v: Json)
    requires IsValue(v)
    ensures KeysAscend(Sorted(v))
  {
    match v
    case Arr(items) =>
      forall i | 0 <= i < |items|
        ensures KeysAscend(SortedItems(items)[i])
      {
        SortedItemsAt(items, i);
        SortedAscends(items[i]);
      }
    case Obj(ms) =>
      var ns := SortedMembers(ms);
      SortedMembersHold(ms);
      SortedInOrder(ms);
      forall i | 0 <= i < |ns|
        ensures KeysAscend(ns[i].value)
      {
        assert ns[i] in ns;
        var j :| 0 <= j < |ms| && ns[i] == Member(ms[j].key, Sorted(ms[j].value));
        SortedAscends(ms[j].value);
      }
      forall i, j | 0 <= i < j < |ns|
        ensures Precedes(ns[i].key, ns[j].key)
      {
        BeforeByCodePoint(ns[i].key, ns[j].key);
      }
    case _ =>
  }

  /**
   The canonical text of a value is the plain text of the same value with its keys ascending by code point at
   every depth; so there is no other text it could be.
   */
  lemma DumpsIsPlain(ascii: bool, v: Json)
    requires IsValue(v)
    ensures Dumps(ascii, v) == Plain(ascii, Sorted(v))
    ensures Same(v, Sorted(v)) && KeysAscend(Sorted(v))
  {
    ShowIsPlain(ascii, Sorted(v), "");
    SortedIsSame(v);
    SortedAscends(v);
  }
}
