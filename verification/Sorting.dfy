/** Library sorting (sort.SliceStable, sort.Slice, sort.Strings), as a stable insertion sort, and the fact
    the callers rely on: under a strict total order the sorted sequence is unique. */
module Sorting {

  ghost predicate StrictTotalOn<T(!new)>(less: (T, T) -> bool, elems: set<T>) {
    && (forall x :: x in elems ==> !less(x, x))
    && (forall x, y, z :: x in elems && y in elems && z in elems && less(x, y) && less(y, z) ==> less(x, z))
    && (forall x, y :: x in elems && y in elems && x != y ==> less(x, y) || less(y, x))
  }

  ghost predicate Increasing<T>(less: (T, T) -> bool, s: seq<T>) {
    forall i, j :: 0 <= i < j < |s| ==> less(s[i], s[j])
  }

  ghost predicate Distinct<T>(s: seq<T>) {
    forall i, j :: 0 <= i < j < |s| ==> s[i] != s[j]
  }

  function Elems<T>(s: seq<T>): set<T> {
    set x | x in s
  }

  function InsertBy<T>(less: (T, T) -> bool, x: T, s: seq<T>): (r: seq<T>)
    ensures multiset(r) == multiset{x} + multiset(s)
    ensures |r| == |s| + 1
  {
    if s == [] then [x]
    else if less(s[0], x) then
      assert s == [s[0]] + s[1..];
      [s[0]] + InsertBy(less, x, s[1..])
    else [x] + s
  }

  function SortBy<T>(less: (T, T) -> bool, s: seq<T>): (r: seq<T>)
    ensures multiset(r) == multiset(s)
    ensures |r| == |s|
  {
    if s == [] then []
    else
      assert s == [s[0]] + s[1..];
      InsertBy(less, s[0], SortBy(less, s[1..]))
  }

  lemma SameElems<T>(a: seq<T>, b: seq<T>)
    requires multiset(a) == multiset(b)
    ensures Elems(a) == Elems(b)
  {
    forall x ensures x in a <==> x in b {
      assert x in a <==> x in multiset(a);
      assert x in b <==> x in multiset(b);
    }
  }

  lemma {:induction false} InsertIncreasing<T(!new)>(less: (T, T) -> bool, x: T, s: seq<T>)
    requires StrictTotalOn(less, Elems(s) + {x}) && x !in s && Increasing(less, s)
    ensures Increasing(less, InsertBy(less, x, s))
  {
    if s != [] {
      if less(s[0], x) {
        var t := InsertBy(less, x, s[1..]);
        InsertIncreasing(less, x, s[1..]);
        forall j | 0 <= j < |t| ensures less(s[0], t[j]) {
          assert t[j] in multiset(t);
          assert t[j] == x || t[j] in s[1..];
        }
      } else {
        assert less(x, s[0]);
        forall j | 0 <= j < |s| ensures less(x, s[j]) {
          assert s[j] in Elems(s);
        }
      }
    }
  }

  lemma {:induction false} SortIncreasing<T(!new)>(less: (T, T) -> bool, s: seq<T>)
    requires StrictTotalOn(less, Elems(s)) && Distinct(s)
    ensures Increasing(less, SortBy(less, s))
  {
    if s != [] {
      var t := SortBy(less, s[1..]);
      SameElems(t, s[1..]);
      assert Elems(t) + {s[0]} == Elems(s);
      assert s[0] !in Elems(t);
      SortIncreasing(less, s[1..]);
      InsertIncreasing(less, s[0], t);
    }
  }

  /** A strictly increasing enumeration of a set is unique. */
  lemma {:induction false} IncreasingUnique<T(!new)>(less: (T, T) -> bool, a: seq<T>, b: seq<T>)
    requires Elems(a) == Elems(b) && StrictTotalOn(less, Elems(a))
    requires Increasing(less, a) && Increasing(less, b)
    ensures a == b
  {
    assert |b| > 0 ==> b[0] in Elems(b);
    if a != [] {
      assert a[0] in Elems(b) && b != [];
      var i :| 0 <= i < |b| && b[i] == a[0];
      assert b[0] in Elems(a);
      var j :| 0 <= j < |a| && a[j] == b[0];
      var x, y := a[0], b[0];
      assert i == 0 || less(y, x);
      assert j == 0 || less(x, y);
      assert x in Elems(a);
      assert x == y;
      forall x ensures x in a[1..] <==> x in b[1..] {
        assert x in a[1..] <==> x in Elems(a) && x != a[0] by { HeadFresh(less, a); }
        assert x in b[1..] <==> x in Elems(b) && x != b[0] by { HeadFresh(less, b); }
      }
      IncreasingUnique(less, a[1..], b[1..]);
    }
  }

  lemma HeadFresh<T(!new)>(less: (T, T) -> bool, s: seq<T>)
    requires s != [] && StrictTotalOn(less, Elems(s)) && Increasing(less, s)
    ensures forall x :: x in s[1..] <==> x in Elems(s) && x != s[0]
  {
    assert s[0] in Elems(s);
    forall k | 1 <= k < |s| ensures s[k] != s[0] {
      assert less(s[0], s[k]);
    }
    forall x | x in Elems(s) && x != s[0] ensures x in s[1..] {
      var k :| 0 <= k < |s| && s[k] == x;
      assert s[1..][k - 1] == x;
    }
  }

  /** Byte-wise order of strings, as sort.Strings uses it. */
  predicate LexLess(a: string, b: string) {
    b != "" && (a == "" || a[0] < b[0] || (a[0] == b[0] && LexLess(a[1..], b[1..])))
  }

  /** Where two strings first differ, the lesser character decides; a proper prefix comes first. */
  ghost predicate DiffersAt(a: string, b: string, k: nat) {
    k <= |a| && k < |b| && (forall i :: 0 <= i < k ==> a[i] == b[i]) && (k == |a| || a[k] < b[k])
  }

  lemma {:induction false} LexLessMeans(a: string, b: string)
    ensures LexLess(a, b) <==> exists k: nat :: DiffersAt(a, b, k)
  {
    if a != "" && b != "" && a[0] == b[0] {
      LexLessMeans(a[1..], b[1..]);
      if k: nat :| DiffersAt(a[1..], b[1..], k) { assert DiffersAt(a, b, k + 1); }
      if k: nat :| DiffersAt(a, b, k) { assert DiffersAt(a[1..], b[1..], k - 1); }
    } else {
      assert b != "" && (a == "" || a[0] < b[0]) ==> DiffersAt(a, b, 0);
      assert forall k: nat :: DiffersAt(a, b, k) ==> k == 0;
    }
  }

  lemma {:induction false} LexTransitive(a: string, b: string, c: string)
    requires LexLess(a, b) && LexLess(b, c)
    ensures LexLess(a, c)
  {
    if a != "" && a[0] == b[0] && b[0] == c[0] {
      LexTransitive(a[1..], b[1..], c[1..]);
    }
  }

  lemma {:induction false} LexIrreflexive(a: string)
    ensures !LexLess(a, a)
  {
    if a != "" { LexIrreflexive(a[1..]); }
  }

  lemma {:induction false} LexTotal(a: string, b: string)
    requires a != b
    ensures LexLess(a, b) || LexLess(b, a)
  {
    if a != "" && b != "" && a[0] == b[0] {
      assert a == [a[0]] + a[1..] && b == [b[0]] + b[1..];
      LexTotal(a[1..], b[1..]);
    }
  }

  lemma LexStrictTotal(elems: set<string>)
    ensures StrictTotalOn(LexLess, elems)
  {
    forall x | x in elems ensures !LexLess(x, x) { LexIrreflexive(x); }
    forall x, y, z | LexLess(x, y) && LexLess(y, z) ensures LexLess(x, z) { LexTransitive(x, y, z); }
    forall x, y | x in elems && y in elems && x != y ensures LexLess(x, y) || LexLess(y, x) { LexTotal(x, y); }
  }

  /** A set as an ordered list of rows, as an ORDER BY query returns it. */
  method Enumerate<T(!new, ==)>(less: (T, T) -> bool, elems: set<T>) returns (rows: seq<T>)
    requires StrictTotalOn(less, elems)
    ensures Increasing(less, rows) && Elems(rows) == elems
  {
    var rest, found: seq<T> := elems, [];
    while rest != {}
      invariant rest <= elems && Distinct(found) && Elems(found) == elems - rest
      decreases rest
    {
      var x :| x in rest;
      assert x !in Elems(found);
      assert Elems(found + [x]) == Elems(found) + {x};
      rest, found := rest - {x}, found + [x];
    }
    rows := SortBy(less, found);
    SameElems(rows, found);
    SortIncreasing(less, found);
  }
}
