/**
 * The order Python 2's `list.sort()` puts byte strings in, and the one
 * result that sorting a list of strings can have.
 */
module Ordering {

  /** Python 2's `a <= b` on strings: lexicographic by character code. */
  predicate StrLe(a: string, b: string)
    decreases |a|
  {
    a == [] || (b != [] && (a[0] < b[0] || (a[0] == b[0] && StrLe(a[1..], b[1..]))))
  }

  lemma {:induction false} StrLeTotal(a: string, b: string)
    ensures StrLe(a, b) || StrLe(b, a)
    decreases |a|
  {
    if a != [] && b != [] && a[0] == b[0] {
      StrLeTotal(a[1..], b[1..]);
    }
  }

  lemma {:induction false} StrLeAntisymmetric(a: string, b: string)
    requires StrLe(a, b) && StrLe(b, a)
    ensures a == b
    decreases |a|
  {
    if a != [] {
      StrLeAntisymmetric(a[1..], b[1..]);
      assert a == [a[0]] + a[1..] && b == [b[0]] + b[1..];
    }
  }

  lemma {:induction false} StrLeTransitive(a: string, b: string, c: string)
    requires StrLe(a, b) && StrLe(b, c)
    ensures StrLe(a, c)
    decreases |a|
  {
    if a != [] && a[0] == b[0] && b[0] == c[0] {
      StrLeTransitive(a[1..], b[1..], c[1..]);
    }
  }

  /** Every string is `<=` every later one. */
  predicate Sorted(s: seq<string>) {
    forall i, j :: 0 <= i < j < |s| ==> StrLe(s[i], s[j])
  }

  /** A lower bound of `x` and of every element of `u` bounds every element of a list holding exactly those. */
  lemma BoundCarries(y: string, t: seq<string>, u: seq<string>, x: string)
    requires multiset(t) == multiset(u) + multiset{x}
    requires StrLe(y, x) && forall k :: 0 <= k < |u| ==> StrLe(y, u[k])
    ensures forall j :: 0 <= j < |t| ==> StrLe(y, t[j])
  {
    forall j | 0 <= j < |t| ensures StrLe(y, t[j]) {
      assert t[j] in multiset(t);
      if t[j] != x {
        assert t[j] in multiset(u);
        var k :| 0 <= k < |u| && u[k] == t[j];
      }
    }
  }

  /** Insertion of `x` into a sorted list, in front of the first element not below it. */
  function Insert(x: string, s: seq<string>): (r: seq<string>)
    requires Sorted(s)
    ensures Sorted(r)
    ensures multiset(r) == multiset(s) + multiset{x}
    decreases |s|
  {
    if s == [] then [x]
    else if StrLe(x, s[0]) then
      assert forall j :: 0 <= j < |s| ==> StrLe(x, s[j]) by {
        forall j | 0 <= j < |s| ensures StrLe(x, s[j]) {
          if j > 0 { StrLeTransitive(x, s[0], s[j]); }
        }
      }
      [x] + s
    else
      var t := Insert(x, s[1..]);
      StrLeTotal(x, s[0]);
      assert forall k :: 0 <= k < |s[1..]| ==> StrLe(s[0], s[1..][k]) by {
        forall k | 0 <= k < |s[1..]| ensures StrLe(s[0], s[1..][k]) { assert s[1..][k] == s[k + 1]; }
      }
      BoundCarries(s[0], t, s[1..], x);
      assert s == [s[0]] + s[1..];
      [s[0]] + t
  }

  /**
   * The list sorted ascending: an insertion sort standing for Python's
   * `list.sort()`, whose result is the one sorted permutation.
   */
  function Sort(s: seq<string>): (r: seq<string>)
    ensures Sorted(r)
    ensures multiset(r) == multiset(s)
    decreases |s|
  {
    if s == [] then []
    else
      assert s == [s[0]] + s[1..];
      Insert(s[0], Sort(s[1..]))
  }

  /** Two non-empty sorted lists with the same elements start with the same string. */
  lemma SortedHeads(a: seq<string>, b: seq<string>)
    requires a != [] && Sorted(a) && Sorted(b)
    requires multiset(a) == multiset(b)
    ensures a[0] == b[0]
  {
    assert a[0] in multiset(b);
    var i :| 0 <= i < |b| && b[i] == a[0];
    assert b[0] in multiset(a);
    var j :| 0 <= j < |a| && a[j] == b[0];
    assert StrLe(b[0], a[0]) by { StrLeTotal(b[0], b[0]); if i > 0 { assert StrLe(b[0], b[i]); } }
    assert StrLe(a[0], b[0]) by { StrLeTotal(a[0], a[0]); if j > 0 { assert StrLe(a[0], a[j]); } }
    StrLeAntisymmetric(a[0], b[0]);
  }

  lemma MultisetOfTail(a: seq<string>)
    requires a != []
    ensures multiset(a[1..]) == multiset(a) - multiset{a[0]}
  {
    assert a == [a[0]] + a[1..];
  }

  /** Two sorted lists with the same elements are the same list. */
  lemma {:induction false} SortedUnique(a: seq<string>, b: seq<string>)
    requires Sorted(a) && Sorted(b)
    requires multiset(a) == multiset(b)
    ensures a == b
    decreases |a|
  {
    if a != [] {
      SortedHeads(a, b);
      MultisetOfTail(a);
      MultisetOfTail(b);
      SortedUnique(a[1..], b[1..]);
      assert a == [a[0]] + a[1..] && b == [b[0]] + b[1..];
    }
  }

  /** Sorting forgets the order it was given the elements in. */
  lemma SortIgnoresOrder(a: seq<string>, b: seq<string>)
    requires multiset(a) == multiset(b)
    ensures Sort(a) == Sort(b)
  {
    SortedUnique(Sort(a), Sort(b));
  }
}
