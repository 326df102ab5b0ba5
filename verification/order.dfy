/**
 * Lexicographic order on strings (code point by code point, a proper prefix
 * first) and an insertion sort into strictly ascending order. The API router
 * sorts the collected allowed methods with it; on the upper-case ASCII method
 * names it agrees with `localeCompare`.
 */
module StringOrder {

  predicate Less(a: string, b: string)
    decreases |a|
  {
    if |a| == 0 then |b| > 0
    else if |b| == 0 then false
    else a[0] < b[0] || (a[0] == b[0] && Less(a[1..], b[1..]))
  }

  lemma {:induction false} LessIrreflexive(a: string)
    ensures !Less(a, a)
    decreases |a|
  {
    if |a| > 0 {
      LessIrreflexive(a[1..]);
    }
  }

  lemma {:induction false} LessTrichotomy(a: string, b: string)
    ensures Less(a, b) || a == b || Less(b, a)
    decreases |a|
  {
    if |a| > 0 && |b| > 0 && a[0] == b[0] {
      LessTrichotomy(a[1..], b[1..]);
      if a[1..] == b[1..] {
        assert a == [a[0]] + a[1..] && b == [b[0]] + b[1..];
      }
    }
  }

  lemma {:induction false} LessTransitive(a: string, b: string, c: string)
    requires Less(a, b) && Less(b, c)
    ensures Less(a, c)
    decreases |a|
  {
    if |a| > 0 && a[0] == b[0] && b[0] == c[0] {
      LessTransitive(a[1..], b[1..], c[1..]);
    }
  }

  lemma LessAsymmetric(a: string, b: string)
    requires Less(a, b)
    ensures !Less(b, a)
  {
    if Less(b, a) {
      LessTransitive(a, b, a);
      LessIrreflexive(a);
    }
  }

  /** Strictly ascending, hence also free of duplicates. */
  predicate StrictlySorted(s: seq<string>) {
    forall i, j :: 0 <= i < j < |s| ==> Less(s[i], s[j])
  }

  predicate Distinct(s: seq<string>) {
    forall i, j :: 0 <= i < j < |s| ==> s[i] != s[j]
  }

  lemma StrictlySortedIsDistinct(s: seq<string>)
    requires StrictlySorted(s)
    ensures Distinct(s)
  {
    forall i, j | 0 <= i < j < |s|
      ensures s[i] != s[j]
    {
      LessIrreflexive(s[i]);
    }
  }

  /** Insert a new element into a strictly ascending sequence. */
  function Insert(x: string, s: seq<string>): (r: seq<string>)
    requires StrictlySorted(s) && x !in s
    ensures StrictlySorted(r)
    ensures |r| == |s| + 1
    ensures forall y :: y in r <==> y == x || y in s
    decreases |s|
  {
    if |s| == 0 then [x]
    else if Less(x, s[0]) then
      assert forall k :: 0 <= k < |s| ==> Less(x, s[k]) by {
        forall k | 0 <= k < |s| ensures Less(x, s[k]) {
          if k > 0 { LessTransitive(x, s[0], s[k]); }
        }
      }
      [x] + s
    else
      LessTrichotomy(x, s[0]);
      var t := Insert(x, s[1..]);
      assert forall k :: 0 <= k < |t| ==> Less(s[0], t[k]) by {
        forall k | 0 <= k < |t| ensures Less(s[0], t[k]) {
          assert t[k] in t;
        }
      }
      [s[0]] + t
  }

  /** `Array.from(set).sort()`: the elements of a duplicate-free sequence in ascending order. */
  function Sort(s: seq<string>): (r: seq<string>)
    requires Distinct(s)
    ensures StrictlySorted(r)
    ensures |r| == |s|
    ensures forall y :: y in r <==> y in s
    decreases |s|
  {
    if |s| == 0 then []
    else
      var t := Sort(s[1..]);
      assert s[0] !in s[1..];
      Insert(s[0], t)
  }

  /** The ascending order of a set is unique: two strictly sorted sequences with
      the same elements are equal. */
  lemma {:induction false} SortedUnique(a: seq<string>, b: seq<string>)
    requires StrictlySorted(a) && StrictlySorted(b)
    requires forall y :: y in a <==> y in b
    ensures a == b
    decreases |a|
  {
    assert |a| > 0 <==> |b| > 0 by {
      if |a| > 0 { assert a[0] in b; }
      if |b| > 0 { assert b[0] in a; }
    }
    if |a| > 0 {
      if a[0] != b[0] {
        assert a[0] in b && b[0] in a;
        var i :| 0 <= i < |b| && b[i] == a[0];
        var j :| 0 <= j < |a| && a[j] == b[0];
        assert Less(b[0], a[0]) by { if i == 0 { } }
        assert Less(a[0], b[0]) by { if j == 0 { } }
        LessAsymmetric(a[0], b[0]);
      }
      forall y ensures y in a[1..] <==> y in b[1..] {
        StrictlySortedIsDistinct(a);
        StrictlySortedIsDistinct(b);
        if y in a[1..] {
          var k :| 1 <= k < |a| && a[k] == y;
          assert y != a[0];
          assert a[k] in a;
          var m :| 0 <= m < |b| && b[m] == y;
          assert m != 0 && b[1..][m - 1] == y;
        }
        if y in b[1..] {
          var k :| 1 <= k < |b| && b[k] == y;
          assert y != b[0];
          assert b[k] in b;
          var m :| 0 <= m < |a| && a[m] == y;
          assert m != 0 && a[1..][m - 1] == y;
        }
      }
      SortedUnique(a[1..], b[1..]);
    }
  }
}
