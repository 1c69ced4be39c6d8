/**
 `json.dumps(value, sort_keys=True, separators=(",", ":"))` in its two escape modes, and
 `json.loads`, over null, booleans, integers, strings of Unicode scalar values, arrays and objects.
 */
module Json {
  import opened Options

  // An object lists its members in the insertion order of the Python dict.
  datatype Json =
    | Null
    | Bool(b: bool)
    | Int(n: int)
    | Str(s: string)
    | Arr(items: seq<Json>)
    | Obj(members: seq<Member>)

  datatype Member = Member(key: string, value: Json)

  // ----- dict operations -----

  predicate HasKey(ms: seq<Member>, key: string) {
    exists i :: 0 <= i < |ms| && ms[i].key == key
  }

  function Get(ms: seq<Member>, key: string): Option<Json> {
    if ms == [] then None
    else if ms[0].key == key then Some(ms[0].value)
    else Get(ms[1..], key)
  }

  // d[key] = value keeps the place of a key that is already there.
  function Put(ms: seq<Member>, m: Member): seq<Member> {
    if ms == [] then [m]
    else if ms[0].key == m.key then [m] + ms[1..]
    else [ms[0]] + Put(ms[1..], m)
  }

  ghost predicate DistinctKeys(ms: seq<Member>) {
    forall i, j :: 0 <= i < j < |ms| ==> ms[i].key != ms[j].key
  }

  // The values Python can hold: no dict has a key twice, at any depth.
  ghost predicate IsValue(v: Json) {
    match v
    case Arr(items) => forall i :: 0 <= i < |items| ==> IsValue(items[i])
    case Obj(ms) => DistinctKeys(ms) && forall i :: 0 <= i < |ms| ==> IsValue(ms[i].value)
    case _ => true
  }

  // Equal as JSON, dict order aside: lists agree in order, dicts agree as maps.
  ghost predicate Same(a: Json, b: Json) {
    match (a, b)
    case (Arr(xs), Arr(ys)) => |xs| == |ys| && forall i :: 0 <= i < |xs| ==> Same(xs[i], ys[i])
    case (Obj(ms), Obj(ns)) =>
      && |ms| == |ns|
      && forall i :: 0 <= i < |ms| ==>
           exists j :: 0 <= j < |ns| && ms[i].key == ns[j].key && Same(ms[i].value, ns[j].value)
    case _ => a == b
  }

  // ----- sort_keys -----

  // Python compares strings by code points.
  predicate Before(a: string, b: string) {
    b != "" && (a == "" || a[0] < b[0] || (a[0] == b[0] && Before(a[1..], b[1..])))
  }

  // The strings agree up to place k, where a has ended or has the smaller code point.
  ghost predicate SmallerAt(a: string, b: string, k: nat) {
    k <= |a| && k < |b| && a[..k] == b[..k] && (k == |a| || a[k] as int < b[k] as int)
  }

  ghost predicate Precedes(a: string, b: string) {
    exists k: nat :: SmallerAt(a, b, k)
  }

  lemma SameFirst(a: string, b: string, k: nat)
    requires SmallerAt(a, b, k) && k > 0
    ensures a[0] == b[0]
  {
    assert a[..k][0] == b[..k][0];
  }

  /** Strings stand in the order of their code points, a prefix first. */
  lemma {:induction false} BeforeByCodePoint(a: string, b: string)
    ensures Before(a, b) <==> Precedes(a, b)
  {
    if a == "" || b == "" || a[0] != b[0] {
      if Before(a, b) { assert SmallerAt(a, b, 0); }
      if k: nat :| SmallerAt(a, b, k) {
        if k > 0 { SameFirst(a, b, k); }
      }
    } else {
      BeforeByCodePoint(a[1..], b[1..]);
      if Before(a, b) {
        var k: nat :| SmallerAt(a[1..], b[1..], k);
        assert a[..k + 1] == [a[0]] + a[1..][..k] && b[..k + 1] == [b[0]] + b[1..][..k];
        assert SmallerAt(a, b, k + 1);
      }
      if k: nat :| SmallerAt(a, b, k) {
        assert k > 0;
        assert a[1..][..k - 1] == a[..k][1..] && b[1..][..k - 1] == b[..k][1..];
        assert SmallerAt(a[1..], b[1..], k - 1);
      }
    }
  }

  lemma {:induction false} BeforeIsTotal(a: string, b: string)
    ensures a == b || Before(a, b) || Before(b, a)
    ensures !(Before(a, b) && Before(b, a)) && !Before(a, a)
  {
    if a != "" && b != "" {
      BeforeIsTotal(a[1..], b[1..]);
      if a[0] == b[0] && a[1..] == b[1..] { assert a == [a[0]] + a[1..] == b; }
    }
    if a != "" { BeforeIsTotal(a[1..], a[1..]); }
  }

  lemma {:induction false} BeforeIsTransitive(a: string, b: string, c: string)
    requires Before(a, b) && Before(b, c)
    ensures Before(a, c)
  {
    if a != "" && a[0] == b[0] == c[0] { BeforeIsTransitive(a[1..], b[1..], c[1..]); }
  }

  function InsertByKey(m: Member, ms: seq<Member>): seq<Member> {
    if ms == [] || Before(m.key, ms[0].key) then [m] + ms else [ms[0]] + InsertByKey(m, ms[1..])
  }

  // The value with every object's members in key order, at every depth.
  function Sorted(v: Json): Json
    decreases v, 1
  {
    match v
    case Arr(items) => Arr(SortedItems(items))
    case Obj(ms) => Obj(SortedMembers(ms))
    case _ => v
  }

  function SortedItems(items: seq<Json>): (r: seq<Json>)
    ensures |r| == |items|
    decreases items, 0
  {
    if items == [] then [] else [Sorted(items[0])] + SortedItems(items[1..])
  }

  function SortedMembers(ms: seq<Member>): seq<Member>
    decreases ms, 0
  {
    if ms == [] then []
    else InsertByKey(Member(ms[0].key, Sorted(ms[0].value)), SortedMembers(ms[1..]))
  }

  ghost predicate InKeyOrder(ms: seq<Member>) {
    forall i, j :: 0 <= i < j < |ms| ==> Before(ms[i].key, ms[j].key)
  }

  // ----- sorting keeps the members -----

  lemma {:induction false} InsertMembers(m: Member, ms: seq<Member>)
    ensures |InsertByKey(m, ms)| == |ms| + 1
    ensures forall x :: x in InsertByKey(m, ms) <==> x == m || x in ms
  {
    if ms != [] && !Before(m.key, ms[0].key) { InsertMembers(m, ms[1..]); }
  }

  lemma {:induction false} InsertInOrder(m: Member, ms: seq<Member>)
    requires InKeyOrder(ms) && forall x :: x in ms ==> x.key != m.key
    ensures InKeyOrder(InsertByKey(m, ms))
  {
    if ms != [] {
      BeforeIsTotal(m.key, ms[0].key);
      if Before(m.key, ms[0].key) {
        forall j | 0 < j < |ms|
          ensures Before(m.key, ms[j].key)
        {
          BeforeIsTransitive(m.key, ms[0].key, ms[j].key);
        }
      } else {
        InsertInOrder(m, ms[1..]);
        InsertMembers(m, ms[1..]);
        var rest := InsertByKey(m, ms[1..]);
        forall j | 0 <= j < |rest|
          ensures Before(ms[0].key, rest[j].key)
        {
          assert rest[j] in rest;
        }
      }
    }
  }

  // SortedMembers holds exactly the members, with their values sorted.
  lemma {:induction false} SortedMembersHold(ms: seq<Member>)
    ensures |SortedMembers(ms)| == |ms|
    ensures forall i :: 0 <= i < |ms| ==> Member(ms[i].key, Sorted(ms[i].value)) in SortedMembers(ms)
    ensures forall x :: x in SortedMembers(ms) ==>
              exists i :: 0 <= i < |ms| && x == Member(ms[i].key, Sorted(ms[i].value))
  {
    if ms != [] {
      SortedMembersHold(ms[1..]);
      var m := Member(ms[0].key, Sorted(ms[0].value));
      InsertMembers(m, SortedMembers(ms[1..]));
      forall x | x in SortedMembers(ms)
        ensures exists i :: 0 <= i < |ms| && x == Member(ms[i].key, Sorted(ms[i].value))
      {
        if x != m {
          var i :| 0 <= i < |ms[1..]| && x == Member(ms[1..][i].key, Sorted(ms[1..][i].value));
          assert ms[i + 1] == ms[1..][i];
        }
      }
      forall i | 0 <= i < |ms|
        ensures Member(ms[i].key, Sorted(ms[i].value)) in SortedMembers(ms)
      {
        if i > 0 { assert ms[i] == ms[1..][i - 1]; }
      }
    }
  }

  lemma {:induction false} SortedInOrder(ms: seq<Member>)
    requires DistinctKeys(ms)
    ensures InKeyOrder(SortedMembers(ms))
  {
    if ms != [] {
      SortedInOrder(ms[1..]);
      SortedMembersHold(ms[1..]);
      InsertInOrder(Member(ms[0].key, Sorted(ms[0].value)), SortedMembers(ms[1..]));
    }
  }

  lemma {:induction false} SortedItemsAt(items: seq<Json>, i: nat)
    requires i < |items|
    ensures SortedItems(items)[i] == Sorted(items[i])
  {
    if i > 0 { SortedItemsAt(items[1..], i - 1); }
  }

  lemma OrderedKeysDistinct(ms: seq<Member>)
    requires InKeyOrder(ms)
    ensures DistinctKeys(ms)
  {
    forall i, j | 0 <= i < j < |ms|
      ensures ms[i].key != ms[j].key
    {
      BeforeIsTotal(ms[i].key, ms[j].key);
    }
  }

  lemma {:induction false} SortedIsValue(v: Json)
    requires IsValue(v)
    ensures IsValue(Sorted(v))
  {
    match v
    case Arr(items) =>
      forall i | 0 <= i < |items|
        ensures IsValue(SortedItems(items)[i])
      {
        SortedItemsAt(items, i);
        SortedIsValue(items[i]);
      }
    case Obj(ms) =>
      SortedInOrder(ms);
      OrderedKeysDistinct(SortedMembers(ms));
      SortedMembersHold(ms);
      forall j | 0 <= j < |SortedMembers(ms)|
        ensures IsValue(SortedMembers(ms)[j].value)
      {
        assert SortedMembers(ms)[j] in SortedMembers(ms);
        var i :| 0 <= i < |ms| && SortedMembers(ms)[j] == Member(ms[i].key, Sorted(ms[i].value));
        SortedIsValue(ms[i].value);
      }
    case _ =>
  }

  // ----- the sorted form decides equality -----

  // Two lists in key order with the same members are the same list.
  lemma {:induction false} OrderedListsAgree(a: seq<Member>, b: seq<Member>)
    requires InKeyOrder(a) && InKeyOrder(b) && |a| == |b|
    requires forall x :: x in a <==> x in b
    ensures a == b
  {
    if a != [] {
      assert a[0] in a;
      var j :| 0 <= j < |b| && b[j] == a[0];
      assert b[0] in b;
      var i :| 0 <= i < |a| && a[i] == b[0];
      if i > 0 && j > 0 { BeforeIsTotal(a[0].key, b[0].key); }
      if i == 0 || j == 0 { BeforeIsTotal(a[0].key, a[0].key); }
      assert a[0] == b[0];
      forall x
        ensures x in a[1..] <==> x in b[1..]
      {
        BeforeIsTotal(a[0].key, a[0].key);
        if x in a[1..] { assert x in a && x != a[0]; }
        if x in b[1..] { assert x in b && x != b[0]; }
      }
      OrderedListsAgree(a[1..], b[1..]);
      assert a == [a[0]] + a[1..] && b == [b[0]] + b[1..];
    }
  }

  // Every member of ns has a partner in ms when every member of ms has one in ns.
  lemma PartnersBothWays(ms: seq<Member>, ns: seq<Member>)
    requires DistinctKeys(ms) && DistinctKeys(ns) && |ms| == |ns|
    requires forall i :: 0 <= i < |ms| ==> HasKey(ns, ms[i].key)
    ensures forall j :: 0 <= j < |ns| ==> HasKey(ms, ns[j].key)
  {
    var mk, nk := set m | m in ms :: m.key, set n | n in ns :: n.key;
    KeySetSize(ms);
    KeySetSize(ns);
    forall k | k in mk
      ensures k in nk
    {
      var m :| m in ms && m.key == k;
      var i :| 0 <= i < |ms| && ms[i] == m;
      var j :| 0 <= j < |ns| && ns[j].key == ms[i].key;
      assert ns[j] in ns;
    }
    SubsetOfSameSize(mk, nk);
    forall j | 0 <= j < |ns|
      ensures HasKey(ms, ns[j].key)
    {
      assert ns[j] in ns && ns[j].key in nk;
      var m :| m in ms && m.key == ns[j].key;
      var i :| 0 <= i < |ms| && ms[i] == m;
      assert ms[i].key == ns[j].key;
    }
  }

  lemma {:induction false} KeySetSize(ms: seq<Member>)
    requires DistinctKeys(ms)
    ensures |set m | m in ms :: m.key| == |ms|
  {
    if ms == [] {
      assert (set m | m in ms :: m.key) == {};
    } else {
      KeySetSize(ms[1..]);
      var rest := set m | m in ms[1..] :: m.key;
      assert ms[0].key !in rest;
      assert (set m | m in ms :: m.key) == rest + {ms[0].key} by {
        forall k | k in rest
          ensures k in (set m | m in ms :: m.key)
        {
          var m :| m in ms[1..] && m.key == k;
          assert m in ms;
        }
        forall k | k in (set m | m in ms :: m.key)
          ensures k in rest + {ms[0].key}
        {
          var m :| m in ms && m.key == k;
          if m != ms[0] { assert m in ms[1..]; }
        }
        assert ms[0] in ms;
      }
    }
  }

  lemma SubsetOfSameSize<T>(a: set<T>, b: set<T>)
    requires a <= b && |a| == |b|
    ensures a == b
  {
    assert a + (b - a) == b;
  }

  lemma {:induction false} SameThenSorted(a: Json, b: Json)
    requires IsValue(a) && IsValue(b) && Same(a, b)
    ensures Sorted(a) == Sorted(b)
  {
    match (a, b)
    case (Arr(xs), Arr(ys)) =>
      forall i | 0 <= i < |xs|
        ensures SortedItems(xs)[i] == SortedItems(ys)[i]
      {
        SortedItemsAt(xs, i);
        SortedItemsAt(ys, i);
        SameThenSorted(xs[i], ys[i]);
      }
    case (Obj(ms), Obj(ns)) =>
      forall i, j | 0 <= i < |ms| && 0 <= j < |ns| && ms[i].key == ns[j].key
        ensures Sorted(ms[i].value) == Sorted(ns[j].value)
      {
        SameThenSorted(ms[i].value, ns[j].value);
      }
      assert forall i :: 0 <= i < |ms| ==> HasKey(ns, ms[i].key);
      AgreeingMembersSortAlike(ms, ns);
    case _ =>
  }

  lemma SortedMemberOf(ms: seq<Member>, ns: seq<Member>, x: Member)
    requires forall i :: 0 <= i < |ms| ==> HasKey(ns, ms[i].key)
    requires forall i, j :: 0 <= i < |ms| && 0 <= j < |ns| && ms[i].key == ns[j].key ==>
               Sorted(ms[i].value) == Sorted(ns[j].value)
    requires x in SortedMembers(ms)
    ensures x in SortedMembers(ns)
  {
    SortedMembersHold(ms);
    SortedMembersHold(ns);
    var i :| 0 <= i < |ms| && x == Member(ms[i].key, Sorted(ms[i].value));
    var j :| 0 <= j < |ns| && ns[j].key == ms[i].key;
  }

  lemma AgreeingMembersSortAlike(ms: seq<Member>, ns: seq<Member>)
    requires DistinctKeys(ms) && DistinctKeys(ns) && |ms| == |ns|
    requires forall i :: 0 <= i < |ms| ==> HasKey(ns, ms[i].key)
    requires forall i, j :: 0 <= i < |ms| && 0 <= j < |ns| && ms[i].key == ns[j].key ==>
               Sorted(ms[i].value) == Sorted(ns[j].value)
    ensures SortedMembers(ms) == SortedMembers(ns)
  {
    SortedInOrder(ms);
    SortedInOrder(ns);
    PartnersBothWays(ms, ns);
    forall x
      ensures x in SortedMembers(ms) <==> x in SortedMembers(ns)
    {
      if x in SortedMembers(ms) { SortedMemberOf(ms, ns, x); }
      if x in SortedMembers(ns) { SortedMemberOf(ns, ms, x); }
    }
    SortedMembersHold(ms);
    SortedMembersHold(ns);
    OrderedListsAgree(SortedMembers(ms), SortedMembers(ns));
  }

  lemma SortedPartner(ms: seq<Member>, ns: seq<Member>, i: nat) returns (j: nat)
    requires SortedMembers(ms) == SortedMembers(ns) && i < |ms|
    ensures j < |ns| && ms[i].key == ns[j].key && Sorted(ms[i].value) == Sorted(ns[j].value)
  {
    SortedMembersHold(ms);
    SortedMembersHold(ns);
    var x := Member(ms[i].key, Sorted(ms[i].value));
    assert x in SortedMembers(ns);
    j :| 0 <= j < |ns| && x == Member(ns[j].key, Sorted(ns[j].value));
  }

  lemma {:induction false} SortedThenSame(a: Json, b: Json)
    requires Sorted(a) == Sorted(b)
    ensures Same(a, b)
  {
    match (a, b)
    case (Arr(xs), Arr(ys)) =>
      forall i | 0 <= i < |xs|
        ensures Same(xs[i], ys[i])
      {
        SortedItemsAt(xs, i);
        SortedItemsAt(ys, i);
        SortedThenSame(xs[i], ys[i]);
      }
    case (Obj(ms), Obj(ns)) =>
      assert |SortedMembers(ms)| == |ms| && |SortedMembers(ns)| == |ns| by {
        SortedMembersHold(ms);
        SortedMembersHold(ns);
      }
      forall i | 0 <= i < |ms|
        ensures exists j :: 0 <= j < |ns| && ms[i].key == ns[j].key && Same(ms[i].value, ns[j].value)
      {
        var j := SortedPartner(ms, ns, i);
        SortedThenSame(ms[i].value, ns[j].value);
      }
    case _ =>
  }

  /** Two values are equal, dict order aside, if and only if their sorted forms are identical. */
  lemma SortedDecidesSame(a: Json, b: Json)
    requires IsValue(a) && IsValue(b)
    ensures Same(a, b) <==> Sorted(a) == Sorted(b)
  {
    if Same(a, b) { SameThenSorted(a, b); }
    if Sorted(a) == Sorted(b) { SortedThenSame(a, b); }
  }

  lemma SortedPlace(ms: seq<Member>, i: nat) returns (j: nat)
    requires i < |ms|
    ensures j < |SortedMembers(ms)| == |ms|
    ensures SortedMembers(ms)[j] == Member(ms[i].key, Sorted(ms[i].value))
  {
    SortedMembersHold(ms);
    var x := Member(ms[i].key, Sorted(ms[i].value));
    assert x in SortedMembers(ms);
    j :| 0 <= j < |SortedMembers(ms)| && SortedMembers(ms)[j] == x;
  }

  lemma SortedItemsSame(items: seq<Json>)
    requires forall i :: 0 <= i < |items| ==> Same(items[i], Sorted(items[i]))
    ensures Same(Arr(items), Arr(SortedItems(items)))
  {
    forall i | 0 <= i < |items|
      ensures SortedItems(items)[i] == Sorted(items[i])
    {
      SortedItemsAt(items, i);
    }
  }

  lemma SortedMembersSame(ms: seq<Member>)
    requires forall i :: 0 <= i < |ms| ==> Same(ms[i].value, Sorted(ms[i].value))
    ensures Same(Obj(ms), Obj(SortedMembers(ms)))
  {
    SortedMembersHold(ms);
    var ns := SortedMembers(ms);
    forall i | 0 <= i < |ms|
      ensures exists j :: 0 <= j < |ns| && ms[i].key == ns[j].key && Same(ms[i].value, ns[j].value)
    {
      var j := SortedPlace(ms, i);
    }
  }

  lemma {:induction false} SortedIsSame(v: Json)
    ensures Same(v, Sorted(v))
  {
    match v
    case Arr(items) =>
      forall i | 0 <= i < |items|
        ensures Same(items[i], Sorted(items[i]))
      {
        SortedIsSame(items[i]);
      }
      SortedItemsSame(items);
    case Obj(ms) =>
      forall i | 0 <= i < |ms|
        ensures Same(ms[i].value, Sorted(ms[i].value))
      {
        SortedIsSame(ms[i].value);
      }
      SortedMembersSame(ms);
    case _ =>
  }

  // ----- looking a key up -----

  lemma {:induction false} GetFinds(ms: seq<Member>, key: string, value: Json)
    requires DistinctKeys(ms)
    ensures Get(ms, key) == Some(value) <==> Member(key, value) in ms
    ensures Get(ms, key).None? <==> !HasKey(ms, key)
  {
    if ms != [] {
      GetFinds(ms[1..], key, value);
      if ms[0].key == key {
        assert HasKey(ms, key);
        if Member(key, value) in ms {
          var i :| 0 <= i < |ms| && ms[i] == Member(key, value);
          assert i == 0;
        }
      } else {
        if HasKey(ms, key) {
          var i :| 0 <= i < |ms| && ms[i].key == key;
          assert ms[1..][i - 1].key == key;
        }
        if HasKey(ms[1..], key) {
          var i :| 0 <= i < |ms[1..]| && ms[1..][i].key == key;
          assert ms[i + 1].key == key;
        }
      }
    }
  }

  lemma SortedKeepsKeys(ms: seq<Member>, key: string)
    ensures HasKey(SortedMembers(ms), key) <==> HasKey(ms, key)
  {
    var ns := SortedMembers(ms);
    SortedMembersHold(ms);
    if HasKey(ns, key) {
      var j :| 0 <= j < |ns| && ns[j].key == key;
      assert ns[j] in ns;
      var i :| 0 <= i < |ms| && ns[j] == Member(ms[i].key, Sorted(ms[i].value));
      assert ms[i].key == key;
    }
    if HasKey(ms, key) {
      var i :| 0 <= i < |ms| && ms[i].key == key;
      var j :| 0 <= j < |ns| && ns[j] == Member(ms[i].key, Sorted(ms[i].value));
      assert ns[j].key == key;
    }
  }

  /** A lookup in the sorted dict finds the sorted form of what a lookup in the dict finds. */
  lemma GetFromSorted(ms: seq<Member>, key: string)
    requires DistinctKeys(ms)
    ensures Get(SortedMembers(ms), key) == match Get(ms, key) case None => None case Some(v) => Some(Sorted(v))
  {
    var ns := SortedMembers(ms);
    SortedInOrder(ms);
    OrderedKeysDistinct(ns);
    SortedMembersHold(ms);
    match Get(ms, key)
    case None =>
      GetFinds(ms, key, Null);
      GetFinds(ns, key, Null);
      SortedKeepsKeys(ms, key);
    case Some(v) =>
      GetFinds(ms, key, v);
      var i :| 0 <= i < |ms| && ms[i] == Member(key, v);
      GetFinds(ns, key, Sorted(v));
  }
}
