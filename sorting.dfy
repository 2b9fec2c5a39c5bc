/** `sort.Slice` with a "less" function that compares one integer key, strictly, in one of two
    directions. The Go library does not say which algorithm it uses; the model sorts in place
    by insertion and specifies the outcome by the functional insertion sort `SortedBy`, whose
    sortedness and permutation lemmas are what the callers rely on. */
module Sorting {

  /** `less(x, y)` of the sort: `x` must come before `y`. */
  predicate Precedes<T>(key: T -> int, asc: bool, x: T, y: T) {
    if asc then key(x) < key(y) else key(x) > key(y)
  }

  /** No element is preceded by one that the "less" function puts after it. */
  ghost predicate IsSortedBy<T>(s: seq<T>, key: T -> int, asc: bool) {
    forall i, j :: 0 <= i < j < |s| ==> !Precedes(key, asc, s[j], s[i])
  }

  /** Inserts `x` into `s` behind every element it does not precede. */
  function Insert<T>(s: seq<T>, x: T, key: T -> int, asc: bool): (r: seq<T>)
    ensures |r| == |s| + 1
  {
    if s == [] || !Precedes(key, asc, x, s[|s| - 1]) then s + [x]
    else Insert(s[..|s| - 1], x, key, asc) + [s[|s| - 1]]
  }

  /** Insertion sort, inserting the elements from first to last. */
  function SortedBy<T>(s: seq<T>, key: T -> int, asc: bool): (r: seq<T>)
    ensures |r| == |s|
  {
    if s == [] then []
    else Insert(SortedBy(s[..|s| - 1], key, asc), s[|s| - 1], key, asc)
  }

  /** Inserting adds exactly one element and loses none. */
  lemma {:induction false} InsertPermutes<T>(s: seq<T>, x: T, key: T -> int, asc: bool)
    ensures multiset(Insert(s, x, key, asc)) == multiset(s) + multiset{x}
  {
    if s != [] && Precedes(key, asc, x, s[|s| - 1]) {
      InsertPermutes(s[..|s| - 1], x, key, asc);
      assert s == s[..|s| - 1] + [s[|s| - 1]];
    }
  }

  /** The sort returns a permutation of its input. */
  lemma {:induction false} SortedByPermutes<T>(s: seq<T>, key: T -> int, asc: bool)
    ensures multiset(SortedBy(s, key, asc)) == multiset(s)
  {
    if s != [] {
      SortedByPermutes(s[..|s| - 1], key, asc);
      InsertPermutes(SortedBy(s[..|s| - 1], key, asc), s[|s| - 1], key, asc);
      assert s == s[..|s| - 1] + [s[|s| - 1]];
    }
  }

  lemma {:induction false} InsertSorted<T>(s: seq<T>, x: T, key: T -> int, asc: bool)
    requires IsSortedBy(s, key, asc)
    ensures IsSortedBy(Insert(s, x, key, asc), key, asc)
  {
    if s == [] || !Precedes(key, asc, x, s[|s| - 1]) {
      var r := s + [x];
      forall i, j | 0 <= i < j < |r|
        ensures !Precedes(key, asc, r[j], r[i])
      {
        if j == |s| && i < |s| - 1 {
          assert !Precedes(key, asc, s[|s| - 1], s[i]);
        }
      }
    } else {
      var init, last := s[..|s| - 1], s[|s| - 1];
      InsertSorted(init, x, key, asc);
      var m := Insert(init, x, key, asc);
      InsertPermutes(init, x, key, asc);
      var r := m + [last];
      forall i | 0 <= i < |m|
        ensures !Precedes(key, asc, last, m[i])
      {
        assert m[i] in multiset(m);
        if m[i] != x {
          assert m[i] in multiset(init);
          var k :| 0 <= k < |init| && init[k] == m[i];
          assert !Precedes(key, asc, s[|s| - 1], s[k]);
        }
      }
      forall i, j | 0 <= i < j < |r|
        ensures !Precedes(key, asc, r[j], r[i])
      {
        if j < |m| {
          assert r[i] == m[i] && r[j] == m[j];
        }
      }
    }
  }

  /** Ascending sorts leave the keys non-decreasing, descending sorts non-increasing. */
  lemma {:induction false} SortedByIsSorted<T>(s: seq<T>, key: T -> int, asc: bool)
    ensures IsSortedBy(SortedBy(s, key, asc), key, asc)
  {
    if s != [] {
      SortedByIsSorted(s[..|s| - 1], key, asc);
      InsertSorted(SortedBy(s[..|s| - 1], key, asc), s[|s| - 1], key, asc);
    }
  }

  /** Moving `x` one place further left, past an element it precedes. */
  lemma InsertShift<T>(p: seq<T>, x: T, j: nat, key: T -> int, asc: bool)
    requires 0 < j <= |p| && Precedes(key, asc, x, p[j - 1])
    ensures Insert(p[..j], x, key, asc) + p[j..] == Insert(p[..j - 1], x, key, asc) + p[j - 1..]
  {
    assert p[..j][..j - 1] == p[..j - 1];
    assert p[j - 1..] == [p[j - 1]] + p[j..];
  }

  /** `x` stays where it is once the element before it does not follow it. */
  lemma InsertStop<T>(p: seq<T>, x: T, j: nat, key: T -> int, asc: bool)
    requires j <= |p| && (j == 0 || !Precedes(key, asc, x, p[j - 1]))
    ensures Insert(p[..j], x, key, asc) == p[..j] + [x]
  {
  }

  /** One step of insertion sort: moves `a[i]` left into the sorted prefix `a[..i]`. */
  method InsertAt<T>(a: array<T>, i: nat, key: T -> int, asc: bool)
    requires i < a.Length
    modifies a
    ensures a[..i + 1] == Insert(old(a[..i]), old(a[i]), key, asc)
    ensures a[i + 1..] == old(a[i + 1..])
  {
    ghost var p := a[..i];
    var x := a[i];
    var j := i;
    assert p[..j] == p && p[j..] == [];
    while j > 0 && Precedes(key, asc, x, a[j - 1])
      invariant 0 <= j <= i
      invariant forall k :: 0 <= k < j ==> a[k] == p[k]
      invariant a[j] == x
      invariant forall k :: j < k <= i ==> a[k] == p[k - 1]
      invariant forall k :: i < k < a.Length ==> a[k] == old(a[k])
      invariant Insert(p, x, key, asc) == Insert(p[..j], x, key, asc) + p[j..]
    {
      InsertShift(p, x, j, key, asc);
      a[j - 1], a[j] := a[j], a[j - 1];
      j := j - 1;
    }
    InsertStop(p, x, j, key, asc);
    assert a[..i + 1] == p[..j] + [x] + p[j..];
  }

  /** Sorting in place: afterwards the array holds `SortedBy` of what it held before. */
  method Sort<T>(a: array<T>, key: T -> int, asc: bool)
    modifies a
    ensures a[..] == SortedBy(old(a[..]), key, asc)
  {
    ghost var s := a[..];
    var i := 0;
    while i < a.Length
      invariant 0 <= i <= a.Length
      invariant a[..i] == SortedBy(s[..i], key, asc)
      invariant a[i..] == s[i..]
    {
      assert a[i] == a[i..][0] == s[i..][0] == s[i];
      assert a[i + 1..] == a[i..][1..] && s[i + 1..] == s[i..][1..];
      ghost var sorted := a[..i];
      InsertAt(a, i, key, asc);
      assert s[..i + 1][..i] == s[..i] && s[..i + 1][i] == s[i];
      assert a[..i + 1] == Insert(sorted, s[i], key, asc) == SortedBy(s[..i + 1], key, asc);
      i := i + 1;
    }
    assert a[..] == a[..a.Length];
    assert s == s[..a.Length];
  }
}
