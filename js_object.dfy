/** The object JavaScript builds from a parsed JSON object, and so the text
    `JSON.stringify` writes for it.  A `Json.JObj` lists its members as the
    JSON text does, duplicates included.  A JavaScript object keeps one
    property per key: it holds the last value given for that key, at the
    position where the key first appeared.  Its keys are ordered with the
    array-index keys first, in ascending numeric order, and then the other
    keys in the order they were created.  An array-index key is the decimal
    text, without leading zeros, of an integer below 2^32 - 1. */
module JsObject {
  import opened Common
  import opened Json

  predicate IsIndexKey(k: string) {
    k != [] && (forall i :: 0 <= i < |k| ==> IsDigit(k[i])) && (|k| == 1 || k[0] != '0') &&
    DigitsValue(k) < 0xFFFF_FFFF
  }

  predicate IsNameKey(k: string) {
    !IsIndexKey(k)
  }

  /** Every key is an array index, and they ascend. */
  predicate AscendingIndices(s: seq<string>) {
    (forall i :: 0 <= i < |s| ==> IsIndexKey(s[i])) &&
    forall i, j :: 0 <= i < j < |s| ==> DigitsValue(s[i]) <= DigitsValue(s[j])
  }

  /** The keys of `members`, each once, in the order they first appear. */
  function FirstKeys(members: seq<Member>): (r: seq<string>)
    ensures NoDuplicates(r)
    ensures forall k :: k in r <==> Lookup(members, k).Some?
  {
    if members == [] then []
    else
      var prev := FirstKeys(members[..|members| - 1]);
      var k := members[|members| - 1].key;
      if k in prev then prev else prev + [k]
  }

  /** The position of the member `Lookup` reads: the last one named `key`. */
  function LastIndex(members: seq<Member>, key: string): (r: Option<nat>)
    ensures r.None? <==> Lookup(members, key).None?
    ensures r.Some? ==> r.value < |members| && members[r.value].key == key &&
                        Lookup(members, key) == Some(members[r.value].value)
  {
    if members == [] then None
    else if members[|members| - 1].key == key then Some(|members| - 1)
    else LastIndex(members[..|members| - 1], key)
  }

  function InsertIndex(k: string, s: seq<string>): (r: seq<string>)
    ensures |r| == |s| + 1
    ensures forall x :: x in r <==> x == k || x in s
  {
    if s == [] || !IsIndexKey(k) || !IsIndexKey(s[0]) || DigitsValue(k) <= DigitsValue(s[0]) then [k] + s
    else [s[0]] + InsertIndex(k, s[1..])
  }

  lemma {:induction false} InsertAscending(k: string, s: seq<string>)
    requires IsIndexKey(k) && AscendingIndices(s)
    ensures AscendingIndices(InsertIndex(k, s))
  {
    if s != [] && DigitsValue(k) > DigitsValue(s[0]) {
      var rest := InsertIndex(k, s[1..]);
      InsertAscending(k, s[1..]);
      assert InsertIndex(k, s) == [s[0]] + rest;
      forall x | x in rest
        ensures DigitsValue(s[0]) <= DigitsValue(x)
      {
        if x != k {
          var j :| 0 <= j < |s[1..]| && s[1..][j] == x;
          assert s[j + 1] == x;
        }
      }
    }
  }

  lemma {:induction false} InsertDistinct(k: string, s: seq<string>)
    requires k !in s && NoDuplicates(s)
    ensures NoDuplicates(InsertIndex(k, s))
  {
    if s != [] && IsIndexKey(k) && IsIndexKey(s[0]) && DigitsValue(k) > DigitsValue(s[0]) {
      InsertDistinct(k, s[1..]);
      assert s[0] !in s[1..];
    }
  }

  /** The array-index keys in ascending numeric order. */
  function SortIndices(s: seq<string>): (r: seq<string>)
    requires forall i :: 0 <= i < |s| ==> IsIndexKey(s[i])
    ensures AscendingIndices(r)
    ensures forall x :: x in r <==> x in s
    ensures NoDuplicates(s) ==> NoDuplicates(r)
  {
    if s == [] then []
    else
      var rest := SortIndices(s[1..]);
      InsertAscending(s[0], rest);
      SortStepDistinct(s, rest);
      InsertIndex(s[0], rest)
  }

  lemma SortStepDistinct(s: seq<string>, rest: seq<string>)
    requires s != [] && (forall x :: x in rest <==> x in s[1..]) && (NoDuplicates(s[1..]) ==> NoDuplicates(rest))
    ensures NoDuplicates(s) ==> NoDuplicates(InsertIndex(s[0], rest))
  {
    if NoDuplicates(s) {
      assert s[0] !in s[1..];
      InsertDistinct(s[0], rest);
    }
  }

  lemma {:induction false} FilterDistinct(s: seq<string>, p: string -> bool)
    requires NoDuplicates(s)
    ensures NoDuplicates(Filter(s, p))
  {
    if s != [] {
      FilterDistinct(s[1..], p);
    }
  }

  /** The key order of the object built from `members`. */
  function KeyOrder(members: seq<Member>): (r: seq<string>)
    ensures NoDuplicates(r)
    ensures forall k :: k in r <==> Lookup(members, k).Some?
  {
    var keys := FirstKeys(members);
    var indices := Filter(keys, IsIndexKey);
    var names := Filter(keys, IsNameKey);
    FilterDistinct(keys, IsIndexKey);
    FilterDistinct(keys, IsNameKey);
    var sorted := SortIndices(indices);
    assert forall i, j :: 0 <= i < |sorted| && 0 <= j < |names| ==> sorted[i] != names[j] by {
      forall i, j | 0 <= i < |sorted| && 0 <= j < |names|
        ensures sorted[i] != names[j]
      {
        assert IsIndexKey(sorted[i]) && IsNameKey(names[j]);
      }
    }
    sorted + names
  }

  /** The object JavaScript builds, with every nested value built too. */
  function Canonical(v: Json): (r: Json)
    ensures v.JObj? <==> r.JObj?
    ensures v.JArr? <==> r.JArr?
    ensures v.JArr? ==> |r.items| == |v.items| && forall i :: 0 <= i < |v.items| ==> r.items[i] == Canonical(v.items[i])
    ensures v.JObj? ==> |r.members| == |KeyOrder(v.members)| &&
                        forall i :: 0 <= i < |r.members| ==> r.members[i].key == KeyOrder(v.members)[i]
  {
    match v
    case JArr(items) => JArr(seq(|items|, i requires 0 <= i < |items| => Canonical(items[i])))
    case JObj(members) =>
      var order := KeyOrder(members);
      JObj(seq(|order|, i requires 0 <= i < |order| =>
        match LastIndex(members, order[i])
        case Some(j) => Member(order[i], Canonical(members[j].value))
        case None => Member(order[i], JNull)))
    case _ => v
  }

  // ------------------------------------------------------------- properties

  /** Each key occurs once in the built object. */
  lemma CanonicalKeysDistinct(v: Json)
    requires v.JObj?
    ensures DistinctKeys(Canonical(v).members)
  {
    var order := KeyOrder(v.members);
    var r := Canonical(v).members;
    forall i, j | 0 <= i < j < |r|
      ensures r[i].key != r[j].key
    {
      assert r[i].key == order[i] && r[j].key == order[j];
    }
  }

  /** A property read gives the same value, built, on the object as on the
      parsed text: the handlers' reads do not depend on the building. */
  lemma CanonicalGet(v: Json, key: string)
    ensures Get(Canonical(v), key) == if Get(v, key).Some? then Some(Canonical(Get(v, key).value)) else None
  {
    if v.JObj? {
      var order := KeyOrder(v.members);
      var r := Canonical(v).members;
      CanonicalKeysDistinct(v);
      if Lookup(v.members, key).Some? {
        var i :| 0 <= i < |order| && order[i] == key;
        var j := LastIndex(v.members, key).value;
        assert r[i] == Member(key, Canonical(v.members[j].value));
        LookupDistinct(r, i);
      } else {
        assert forall i :: 0 <= i < |r| ==> r[i].key != key by {
          forall i | 0 <= i < |r|
            ensures r[i].key != key
          {
            assert r[i].key == order[i];
          }
        }
      }
    }
  }

  /** The member at each position of the built object: the key of that
      position in `KeyOrder`, with the last value given for it. */
  lemma CanonicalMemberAt(members: seq<Member>, i: int)
    requires 0 <= i < |KeyOrder(members)|
    ensures Lookup(members, KeyOrder(members)[i]).Some?
    ensures Canonical(JObj(members)).members[i] ==
            Member(KeyOrder(members)[i], Canonical(Lookup(members, KeyOrder(members)[i]).value))
  {
    var key := KeyOrder(members)[i];
    assert key in KeyOrder(members);
    var j := LastIndex(members, key).value;
    assert Canonical(JObj(members)).members[i] == Member(key, Canonical(members[j].value));
  }

  /** The keys of `members` in their order. */
  function KeysOf(members: seq<Member>): (r: seq<string>)
    ensures |r| == |members| && forall i :: 0 <= i < |members| ==> r[i] == members[i].key
  {
    seq(|members|, i requires 0 <= i < |members| => members[i].key)
  }

  /** Without duplicates, the first-seen keys are all the keys. */
  lemma {:induction false} FirstKeysOfDistinct(members: seq<Member>)
    requires DistinctKeys(members)
    ensures FirstKeys(members) == KeysOf(members)
  {
    if members != [] {
      var init := members[..|members| - 1];
      assert DistinctKeys(init) by {
        forall i, j | 0 <= i < j < |init|
          ensures init[i].key != init[j].key
        {
          assert init[i] == members[i] && init[j] == members[j];
        }
      }
      FirstKeysOfDistinct(init);
      var k := members[|members| - 1].key;
      assert k !in KeysOf(init) by {
        forall i | 0 <= i < |init|
          ensures KeysOf(init)[i] != k
        {
          assert init[i] == members[i];
        }
      }
      assert KeysOf(init) + [k] == KeysOf(members);
    }
  }

  /** An object that JavaScript would build as written: no key twice, no
      array-index key, and values that are already built. */
  predicate BuiltAsWritten(members: seq<Member>) {
    DistinctKeys(members) &&
    forall i :: 0 <= i < |members| ==> IsNameKey(members[i].key) && Canonical(members[i].value) == members[i].value
  }

  /** Such an object is kept exactly as written. */
  lemma KeptAsWritten(members: seq<Member>)
    requires BuiltAsWritten(members)
    ensures Canonical(JObj(members)) == JObj(members)
  {
    var keys := KeysOf(members);
    FirstKeysOfDistinct(members);
    FilterDropsAll(keys, IsIndexKey);
    FilterKeepsAll(keys, IsNameKey);
    assert SortIndices([]) == [];
    assert KeyOrder(members) == keys;
    var r := Canonical(JObj(members)).members;
    forall i | 0 <= i < |members|
      ensures r[i] == members[i]
    {
      CanonicalMemberAt(members, i);
      LookupDistinct(members, i);
    }
  }

  /** An array of built values is kept as it is. */
  lemma KeptItems(items: seq<Json>)
    requires forall k :: 0 <= k < |items| ==> Canonical(items[k]) == items[k]
    ensures Canonical(JArr(items)).items == items
  {
  }

  /** The array-index keys come first, ascending, and the other keys keep
      the order in which they first appear. */
  lemma KeyOrderShape(members: seq<Member>)
    ensures var r := KeyOrder(members);
            (forall i, j :: 0 <= i < j < |r| && IsIndexKey(r[j]) ==>
               IsIndexKey(r[i]) && DigitsValue(r[i]) <= DigitsValue(r[j])) &&
            Filter(r, IsNameKey) == Filter(FirstKeys(members), IsNameKey)
  {
    var keys := FirstKeys(members);
    var sorted := SortIndices(Filter(keys, IsIndexKey));
    var names := Filter(keys, IsNameKey);
    assert KeyOrder(members) == sorted + names;
    IndicesBeforeNames(sorted, names);
    NamesKept(sorted, names);
  }

  lemma IndicesBeforeNames(sorted: seq<string>, names: seq<string>)
    requires AscendingIndices(sorted)
    requires forall k :: 0 <= k < |names| ==> IsNameKey(names[k])
    ensures var r := sorted + names;
            forall i, j :: 0 <= i < j < |r| && IsIndexKey(r[j]) ==>
              IsIndexKey(r[i]) && DigitsValue(r[i]) <= DigitsValue(r[j])
  {
    var r := sorted + names;
    assert forall k :: |sorted| <= k < |r| ==> r[k] == names[k - |sorted|];
    forall i, j | 0 <= i < j < |r| && IsIndexKey(r[j])
      ensures IsIndexKey(r[i]) && DigitsValue(r[i]) <= DigitsValue(r[j])
    {
      assert r[i] == sorted[i] && r[j] == sorted[j];
    }
  }

  lemma NamesKept(sorted: seq<string>, names: seq<string>)
    requires forall k :: 0 <= k < |sorted| ==> IsIndexKey(sorted[k])
    requires forall k :: 0 <= k < |names| ==> IsNameKey(names[k])
    ensures Filter(sorted + names, IsNameKey) == names
  {
    FilterAppend(sorted, names, IsNameKey);
    FilterDropsAll(sorted, IsNameKey);
    FilterKeepsAll(names, IsNameKey);
  }

  /** A duplicated key is written once, with its last value, where it first
      appeared. */
  lemma DuplicateKeyKeepsLast()
    ensures Canonical(JObj([Member("position", JNum(1)), Member("name", JStr("a")), Member("name", JStr("b"))])) ==
            JObj([Member("position", JNum(1)), Member("name", JStr("b"))])
  {
    DuplicateKeyCanonical([Member("position", JNum(1)), Member("name", JStr("a")), Member("name", JStr("b"))]);
  }

  lemma DuplicateKeyCanonical(ms: seq<Member>)
    requires ms == [Member("position", JNum(1)), Member("name", JStr("a")), Member("name", JStr("b"))]
    ensures Canonical(JObj(ms)) == JObj([Member("position", JNum(1)), Member("name", JStr("b"))])
  {
    DuplicateKeyOrder(ms);
    DuplicateLookups(ms);
    CanonicalMemberAt(ms, 0);
    CanonicalMemberAt(ms, 1);
    assert Canonical(JNum(1)) == JNum(1) && Canonical(JStr("b")) == JStr("b");
    var r := Canonical(JObj(ms)).members;
    assert r == [r[0], r[1]];
  }

  lemma DuplicateLookups(ms: seq<Member>)
    requires ms == [Member("position", JNum(1)), Member("name", JStr("a")), Member("name", JStr("b"))]
    ensures Lookup(ms, "position") == Some(JNum(1)) && Lookup(ms, "name") == Some(JStr("b"))
  {
    assert ms[..2] == [ms[0], ms[1]];
    assert ms[..2][..1] == [ms[0]];
  }

  lemma DuplicateKeyOrder(ms: seq<Member>)
    requires ms == [Member("position", JNum(1)), Member("name", JStr("a")), Member("name", JStr("b"))]
    ensures KeyOrder(ms) == ["position", "name"]
  {
    DuplicateFirstKeys(ms);
    NameKeysOnly("position", "name");
    assert SortIndices([]) == [];
  }

  lemma DuplicateFirstKeys(ms: seq<Member>)
    requires ms == [Member("position", JNum(1)), Member("name", JStr("a")), Member("name", JStr("b"))]
    ensures FirstKeys(ms) == ["position", "name"]
  {
    assert FirstKeys(ms[..1]) == ["position"] by { assert ms[..1][..0] == []; }
    assert FirstKeys(ms[..2]) == ["position", "name"] by { assert ms[..2][..1] == ms[..1]; }
  }

  lemma NameKeysOnly(a: string, b: string)
    requires a != [] && !IsDigit(a[0]) && b != [] && !IsDigit(b[0])
    ensures Filter([a, b], IsIndexKey) == [] && Filter([a, b], IsNameKey) == [a, b]
  {
    NotIndexKey(a);
    NotIndexKey(b);
    assert [a, b][1..] == [b];
  }

  /** An array-index key moves before the other keys. */
  lemma IndexKeyComesFirst()
    ensures Canonical(JObj([Member("name", JStr("x")), Member("1", JStr("y"))])) ==
            JObj([Member("1", JStr("y")), Member("name", JStr("x"))])
  {
    IndexKeyCanonical([Member("name", JStr("x")), Member("1", JStr("y"))]);
  }

  lemma IndexKeyCanonical(ms: seq<Member>)
    requires ms == [Member("name", JStr("x")), Member("1", JStr("y"))]
    ensures Canonical(JObj(ms)) == JObj([Member("1", JStr("y")), Member("name", JStr("x"))])
  {
    IndexKeyOrder(ms);
    IndexLookups(ms);
    CanonicalMemberAt(ms, 0);
    CanonicalMemberAt(ms, 1);
    assert Canonical(JStr("y")) == JStr("y") && Canonical(JStr("x")) == JStr("x");
    var r := Canonical(JObj(ms)).members;
    assert r == [r[0], r[1]];
  }

  lemma IndexLookups(ms: seq<Member>)
    requires ms == [Member("name", JStr("x")), Member("1", JStr("y"))]
    ensures Lookup(ms, "1") == Some(JStr("y")) && Lookup(ms, "name") == Some(JStr("x"))
  {
    assert ms[..1] == [Member("name", JStr("x"))];
  }

  lemma IndexKeyOrder(ms: seq<Member>)
    requires ms == [Member("name", JStr("x")), Member("1", JStr("y"))]
    ensures KeyOrder(ms) == ["1", "name"]
  {
    IndexFirstKeys(ms);
    IndexKeySplit();
    SortOne(["1"]);
  }

  lemma SortOne(s: seq<string>)
    requires |s| == 1 && IsIndexKey(s[0])
    ensures SortIndices(s) == s
  {
    assert SortIndices(s[1..]) == [];
  }

  lemma IndexFirstKeys(ms: seq<Member>)
    requires ms == [Member("name", JStr("x")), Member("1", JStr("y"))]
    ensures FirstKeys(ms) == ["name", "1"]
  {
    assert FirstKeys(ms[..1]) == ["name"] by { assert ms[..1][..0] == []; }
  }

  lemma IndexKeySplit()
    ensures Filter(["name", "1"], IsIndexKey) == ["1"] && Filter(["name", "1"], IsNameKey) == ["name"]
  {
    NotIndexKey("name");
    OneIsIndexKey();
    assert ["name", "1"][1..] == ["1"];
  }

  lemma OneIsIndexKey()
    ensures IsIndexKey("1")
  {
    assert DigitsValue("1") == 1 by { assert "1"[..0] == []; }
  }

  lemma NotIndexKey(k: string)
    requires k != [] && !IsDigit(k[0])
    ensures !IsIndexKey(k)
  {
  }
}
