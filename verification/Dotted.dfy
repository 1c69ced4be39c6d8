/** Texts joined with '.', and `text.split(".")`. */
module Dotted {
  predicate NoDot(s: string) {
    '.' !in s
  }

  function Split(s: string): (parts: seq<string>)
    ensures parts != []
  {
    if s == "" then [""]
    else
      var rest := Split(s[1..]);
      if s[0] == '.' then [""] + rest else [[s[0]] + rest[0]] + rest[1..]
  }

  lemma {:induction false} SplitFirst(a: string, rest: string)
    requires NoDot(a)
    ensures Split(a + "." + rest) == [a] + Split(rest)
  {
    var s := a + "." + rest;
    if a == "" {
      assert s[1..] == rest;
    } else {
      assert s[1..] == a[1..] + "." + rest;
      assert s[0] == a[0] && a[0] in a;
      SplitFirst(a[1..], rest);
      assert [a[0]] + a[1..] == a;
    }
  }

  lemma {:induction false} SplitWhole(a: string)
    requires NoDot(a)
    ensures Split(a) == [a]
  {
    if a != "" {
      assert a[0] in a;
      SplitWhole(a[1..]);
      assert [a[0]] + a[1..] == a;
    }
  }

  lemma {:induction false} PartsHaveNoDot(s: string, i: nat)
    requires i < |Split(s)|
    ensures NoDot(Split(s)[i])
  {
    if s != "" {
      var rest := Split(s[1..]);
      if s[0] == '.' {
        if i > 0 { PartsHaveNoDot(s[1..], i - 1); }
      } else {
        PartsHaveNoDot(s[1..], i);
      }
    }
  }

  /** The text before the first dot and the text after it can be told apart. */
  lemma FirstDotDecides(a: string, x: string, b: string, y: string)
    requires NoDot(a) && NoDot(b)
    requires a + "." + x == b + "." + y
    ensures a == b && x == y
  {
    SplitFirst(a, x);
    SplitFirst(b, y);
    assert a == (Split(a + "." + x))[0];
    var s := a + "." + x;
    assert x == s[|a| + 1..] && y == (b + "." + y)[|b| + 1..];
  }
  // ".".join(parts)
  function Join(parts: seq<string>): string {
    if parts == [] then "" else if |parts| == 1 then parts[0] else parts[0] + "." + Join(parts[1..])
  }

  /** Joining undoes splitting. */
  lemma {:induction false} JoinSplit(s: string)
    ensures Join(Split(s)) == s
  {
    if s != "" {
      var rest := Split(s[1..]);
      JoinSplit(s[1..]);
      if s[0] == '.' {
        JoinOnto("", rest);
      } else {
        LongerFirst(s[0], rest);
      }
      assert [s[0]] + s[1..] == s;
    }
  }

  lemma JoinOnto(first: string, rest: seq<string>)
    requires rest != []
    ensures Join([first] + rest) == first + "." + Join(rest)
  {
    assert ([first] + rest)[1..] == rest;
  }

  lemma LongerFirst(c: char, parts: seq<string>)
    requires parts != []
    ensures Join([[c] + parts[0]] + parts[1..]) == [c] + Join(parts)
  {
    var longer := [[c] + parts[0]] + parts[1..];
    if |parts| > 1 {
      assert longer[1..] == parts[1..];
      assert [c] + (parts[0] + "." + Join(parts[1..])) == [c] + parts[0] + "." + Join(parts[1..]);
    }
  }

  lemma JoinThree(a: string, b: string, c: string)
    ensures Join([a, b, c]) == a + "." + b + "." + c
  {
    assert [a, b, c][1..] == [b, c] && [b, c][1..] == [c];
    assert Join([b, c]) == b + "." + Join([c]) == b + "." + c;
    assert a + "." + (b + "." + c) == a + "." + b + "." + c;
  }
}
