/**
 * The orders the transition script relies on: Python's `<` on `str`
 * (lexicographic by code point), `list.sort()` on a list of field names, and
 * `sorted()` of a set of years.
 */
module Ordering {

  /** Python's `a < b` on `str`. */
  predicate LexLess(a: string, b: string)
    decreases |a|
  {
    b != [] && (a == [] || a[0] < b[0] || (a[0] == b[0] && LexLess(a[1..], b[1..])))
  }

  lemma {:induction false} LexLessAsymmetric(a: string, b: string)
    requires LexLess(a, b)
    ensures !LexLess(b, a)
    decreases |a|
  {
    if a != [] && a[0] == b[0] {
      LexLessAsymmetric(a[1..], b[1..]);
    }
  }

  /** Non-decreasing under Python's string order. */
  predicate SortedStrings(s: seq<string>) {
    forall i, j :: 0 <= i < j < |s| ==> !LexLess(s[j], s[i])
  }

  /** Inserts `x` before the first element not smaller than it. */
  function Insert(x: string, s: seq<string>): (r: seq<string>)
    requires SortedStrings(s)
    ensures multiset(r) == multiset(s) + multiset{x}
    ensures SortedStrings(r)
  {
    if s == [] then [x]
    else if !LexLess(s[0], x) then
      InsertFront(x, s);
      [x] + s
    else
      LexLessAsymmetric(s[0], x);
      var rest := Insert(x, s[1..]);
      InsertBehind(x, s, rest);
      [s[0]] + rest
  }

  /** Keeping the head of a sorted list in front of `x` inserted into its tail keeps it sorted. */
  lemma InsertBehind(x: string, s: seq<string>, rest: seq<string>)
    requires SortedStrings(s) && s != [] && !LexLess(x, s[0])
    requires multiset(rest) == multiset(s[1..]) + multiset{x} && SortedStrings(rest)
    ensures SortedStrings([s[0]] + rest)
    ensures multiset([s[0]] + rest) == multiset(s) + multiset{x}
  {
    assert s == [s[0]] + s[1..];
    forall j | 0 <= j < |rest| ensures !LexLess(rest[j], s[0]) {
      assert rest[j] in multiset(rest);
      if rest[j] != x {
        assert rest[j] in multiset(s[1..]);
        var k :| 0 <= k < |s[1..]| && s[1..][k] == rest[j];
        assert s[k + 1] == rest[j];
      }
    }
  }

  /** Putting `x` in front of a sorted list whose head is not smaller keeps it sorted. */
  lemma InsertFront(x: string, s: seq<string>)
    requires SortedStrings(s) && s != [] && !LexLess(s[0], x)
    ensures SortedStrings([x] + s)
  {
    forall j | 0 < j < |s| ensures !LexLess(s[j], x) {
      LexLeqTransitive(x, s[0], s[j]);
    }
  }

  /** "Not smaller than" is transitive: `a <= b <= c` gives `a <= c`. */
  lemma {:induction false} LexLeqTransitive(a: string, b: string, c: string)
    requires !LexLess(b, a) && !LexLess(c, b)
    ensures !LexLess(c, a)
    decreases |a|
  {
    if a != [] && b != [] && c != [] && a[0] == b[0] && b[0] == c[0] {
      LexLeqTransitive(a[1..], b[1..], c[1..]);
    }
  }

  /** `list.sort()` on strings: a sorted permutation of its input. */
  function SortStrings(s: seq<string>): (r: seq<string>)
    ensures multiset(r) == multiset(s)
    ensures SortedStrings(r)
  {
    if s == [] then []
    else
      assert s == [s[0]] + s[1..];
      Insert(s[0], SortStrings(s[1..]))
  }

  // ---------------------------------------------------------------------------
  // sorted() of a set of natural numbers

  lemma HasElement(s: set<nat>)
    requires s != {}
    ensures exists x :: x in s
  {
    if forall x :: x !in s {
      assert false;
    }
  }

  lemma {:induction false} LeastElement(s: set<nat>) returns (least: nat)
    requires s != {}
    ensures least in s && forall y :: y in s ==> least <= y
    decreases s
  {
    HasElement(s);
    var x :| x in s;
    if s == {x} {
      return x;
    }
    var m := LeastElement(s - {x});
    least := if x <= m then x else m;
    forall y | y in s ensures least <= y {
      if y != x {
        assert y in s - {x};
      }
    }
  }

  lemma MinExists(s: set<nat>)
    requires s != {}
    ensures exists m :: m in s && forall y :: y in s ==> m <= y
  {
    var m := LeastElement(s);
  }

  /** The least element of a non-empty set. */
  function Min(s: set<nat>): (m: nat)
    requires s != {}
    ensures m in s && forall y :: y in s ==> m <= y
  {
    MinExists(s);
    var m :| m in s && forall y :: y in s ==> m <= y;
    m
  }

  /** `sorted(s)`: the elements of `s` in strictly increasing order, each once. */
  function SortedNats(s: set<nat>): (r: seq<nat>)
    ensures |r| == |s|
    ensures forall x :: x in r <==> x in s
    ensures forall i, j :: 0 <= i < j < |r| ==> r[i] < r[j]
    decreases |s|
  {
    if s == {} then []
    else
      var m := Min(s);
      var rest := SortedNats(s - {m});
      assert forall j :: 0 <= j < |rest| ==> m < rest[j] by {
        forall j | 0 <= j < |rest| ensures m < rest[j] {
          assert rest[j] in rest;
        }
      }
      var r := [m] + rest;
      assert |s - {m}| == |s| - 1;
      assert forall x :: x in r <==> x == m || x in rest;
      assert forall k :: 0 < k < |r| ==> r[k] == rest[k - 1];
      r
  }
}
