/** String order as the dashboards sort team names and event fields.  The
    default `Array.prototype.sort` compares UTF-16 code units; the model
    compares characters, that is code points, and uses the same order for
    `localeCompare`, whose locale collation is not modelled.  The two orders
    agree except when a character above U+FFFF meets one in U+E000..U+FFFF
    at the first difference. */
module Ordering {
  import opened Common

  /** `a` sorts strictly before `b` in code-point order: a proper prefix,
      or a smaller character at the first difference. */
  predicate Less(a: string, b: string) {
    b != [] && (a == [] || a[0] < b[0] || (a[0] == b[0] && Less(a[1..], b[1..])))
  }

  lemma {:induction false} LessIrreflexive(a: string)
    ensures !Less(a, a)
  {
    if a != [] {
      LessIrreflexive(a[1..]);
    }
  }

  lemma {:induction false} LessAsymmetric(a: string, b: string)
    ensures !(Less(a, b) && Less(b, a))
  {
    if a != [] && b != [] && a[0] == b[0] {
      LessAsymmetric(a[1..], b[1..]);
    }
  }

  lemma {:induction false} LessTotal(a: string, b: string)
    ensures a == b || Less(a, b) || Less(b, a)
  {
    if a != [] && b != [] && a[0] == b[0] {
      LessTotal(a[1..], b[1..]);
      if a[1..] == b[1..] {
        assert a == [a[0]] + a[1..] && b == [b[0]] + b[1..];
      }
    }
  }

  lemma {:induction false} LessTransitive(a: string, b: string, c: string)
    requires Less(a, b) && Less(b, c)
    ensures Less(a, c)
  {
    if a != [] && a[0] == b[0] && b[0] == c[0] {
      LessTransitive(a[1..], b[1..], c[1..]);
    }
  }

  /** `a.localeCompare(b)`, in code-point order. */
  function LocaleCompare(a: string, b: string): (r: int)
    ensures r < 0 <==> Less(a, b)
    ensures r > 0 <==> Less(b, a)
    ensures r == 0 <==> a == b
  {
    LessAsymmetric(a, b);
    LessTotal(a, b);
    if a == b then LessIrreflexive(a); 0 else if Less(a, b) then -1 else 1
  }

  /** Every element sorts strictly before every later one. */
  predicate StrictlySorted(s: seq<string>) {
    forall i, j :: 0 <= i < j < |s| ==> Less(s[i], s[j])
  }

  lemma StrictlySortedDistinct(s: seq<string>)
    requires StrictlySorted(s)
    ensures NoDuplicates(s)
  {
    forall i, j | 0 <= i < j < |s|
      ensures s[i] != s[j]
    {
      LessIrreflexive(s[i]);
    }
  }

  /** Insertion of a new element into a sorted list. */
  function Insert(x: string, s: seq<string>): (r: seq<string>)
    requires StrictlySorted(s) && x !in s
    ensures |r| == |s| + 1
    ensures forall y :: y in r <==> y == x || y in s
    ensures StrictlySorted(r)
  {
    if s == [] then [x]
    else if Less(x, s[0]) then
      forall j | 0 < j < |s|
        ensures Less(x, s[j])
      {
        LessTransitive(x, s[0], s[j]);
      }
      [x] + s
    else
      LessTotal(x, s[0]);
      var rest := Insert(x, s[1..]);
      assert forall j :: 0 <= j < |rest| ==> rest[j] == x || rest[j] in s[1..];
      assert forall j :: 0 < j < |s| ==> Less(s[0], s[j]);
      [s[0]] + rest
  }

  /** The elements of a duplicate-free list in ascending order; with no
      duplicates the order is the only one a comparison sort can give. */
  function SortDistinct(s: seq<string>): (r: seq<string>)
    requires NoDuplicates(s)
    ensures |r| == |s|
    ensures forall y :: y in r <==> y in s
    ensures StrictlySorted(r)
  {
    if s == [] then []
    else
      assert forall j :: 0 < j < |s| ==> s[j] in s[1..];
      Insert(s[0], SortDistinct(s[1..]))
  }

  /** A strictly sorted list is determined by its elements. */
  lemma {:induction false} SortedUnique(a: seq<string>, b: seq<string>)
    requires StrictlySorted(a) && StrictlySorted(b)
    requires forall y :: y in a <==> y in b
    ensures a == b
  {
    assert a != [] ==> a[0] in a;
    assert b != [] ==> b[0] in b;
    if a != [] && b != [] {
      // both heads are the least element
      if a[0] != b[0] {
        assert b[0] in a;
        assert a[0] in b;
        var i :| 0 <= i < |a| && a[i] == b[0];
        var j :| 0 <= j < |b| && b[j] == a[0];
        LessAsymmetric(a[0], b[0]);
        assert false;
      }
      forall y
        ensures y in a[1..] <==> y in b[1..]
      {
        LessIrreflexive(a[0]);
        if y in a[1..] {
          var i :| 0 <= i < |a[1..]| && a[1..][i] == y;
          assert Less(a[0], a[i + 1]);
          assert a[i + 1] in a;
          assert y in b;
          var j :| 0 <= j < |b| && b[j] == y;
          assert j != 0;
          assert b[1..][j - 1] == y;
        }
        if y in b[1..] {
          var j :| 0 <= j < |b[1..]| && b[1..][j] == y;
          assert Less(b[0], b[j + 1]);
          assert b[j + 1] in b;
          assert y in a;
          var i :| 0 <= i < |a| && a[i] == y;
          assert i != 0;
          assert a[1..][i - 1] == y;
        }
      }
      SortedUnique(a[1..], b[1..]);
      assert a == [a[0]] + a[1..] && b == [b[0]] + b[1..];
    }
  }
}
