/** In-place insertion sort by a comparator: the concrete stand-in for sort.Slice and sort.SliceStable. */
module Sorting {

  type Comparator<!T> = (T, T) -> bool

  /** Puts x behind everything it does not come before. */
  function Insert<T>(before: Comparator<T>, s: seq<T>, x: T): seq<T> {
    if |s| > 0 && before(x, s[|s| - 1]) then Insert(before, s[..|s| - 1], x) + [s[|s| - 1]] else s + [x]
  }

  function InsertAll<T>(before: Comparator<T>, s: seq<T>): seq<T> {
    if |s| == 0 then [] else Insert(before, InsertAll(before, s[..|s| - 1]), s[|s| - 1])
  }

  ghost predicate Sorted<T>(before: Comparator<T>, s: seq<T>) {
    forall i, j :: 0 <= i < j < |s| ==> !before(s[j], s[i])
  }

  /** Incomparability in one direction chains; all that insertion needs of a strict weak order. */
  ghost predicate Chains<T(!new)>(before: Comparator<T>) {
    && (forall a, b, c :: !before(a, b) && !before(b, c) ==> !before(a, c))
    && (forall a, b :: before(a, b) ==> !before(b, a))
  }

  lemma {:induction false} InsertPermutes<T>(before: Comparator<T>, s: seq<T>, x: T)
    ensures multiset(Insert(before, s, x)) == multiset(s) + multiset{x}
  {
    if |s| > 0 && before(x, s[|s| - 1]) {
      assert s == s[..|s| - 1] + [s[|s| - 1]];
      InsertPermutes(before, s[..|s| - 1], x);
    }
  }

  lemma {:induction false} InsertSorts<T(!new)>(before: Comparator<T>, s: seq<T>, x: T)
    requires Chains(before) && Sorted(before, s)
    ensures Sorted(before, Insert(before, s, x))
  {
    if |s| > 0 {
      var front, z := s[..|s| - 1], s[|s| - 1];
      if before(x, z) {
        InsertSorts(before, front, x);
        InsertPermutes(before, front, x);
        var r := Insert(before, front, x);
        forall i | 0 <= i < |r| ensures !before(z, r[i]) {
          assert r[i] in multiset(r);
          if r[i] in front { var k :| 0 <= k < |front| && front[k] == r[i]; assert s[k] == r[i]; }
        }
      } else {
        forall i | 0 <= i < |s| ensures !before(x, s[i]) {
          assert i < |s| - 1 ==> !before(z, s[i]);
        }
      }
    }
  }

  lemma {:induction false} InsertAllSorts<T(!new)>(before: Comparator<T>, s: seq<T>)
    requires Chains(before)
    ensures Sorted(before, InsertAll(before, s)) && multiset(InsertAll(before, s)) == multiset(s)
  {
    if |s| > 0 {
      var front := InsertAll(before, s[..|s| - 1]);
      assert s == s[..|s| - 1] + [s[|s| - 1]];
      InsertAllSorts(before, s[..|s| - 1]);
      InsertPermutes(before, front, s[|s| - 1]);
      InsertSorts(before, front, s[|s| - 1]);
    }
  }

  lemma {:induction false} InsertAt<T>(before: Comparator<T>, s: seq<T>, x: T, j: nat)
    requires j <= |s| && (j > 0 ==> !before(x, s[j - 1]))
    requires forall k :: j <= k < |s| ==> before(x, s[k])
    ensures Insert(before, s, x) == s[..j] + [x] + s[j..]
  {
    if j < |s| {
      InsertAt(before, s[..|s| - 1], x, j);
      assert s[..|s| - 1][..j] == s[..j];
      assert s[j..] == s[..|s| - 1][j..] + [s[|s| - 1]];
    }
  }

  /** Sinks a[i] into the prefix before it. */
  method Sink<T>(before: Comparator<T>, a: array<T>, i: nat)
    requires i < a.Length
    modifies a
    ensures a[..i + 1] == Insert(before, old(a[..i]), old(a[i]))
    ensures forall k :: i < k < a.Length ==> a[k] == old(a[k])
  {
    ghost var done, x := a[..i], a[i];
    var j := i;
    while j > 0 && before(a[j], a[j - 1])
      invariant 0 <= j <= i && a[j] == x
      invariant forall k :: 0 <= k < j ==> a[k] == done[k]
      invariant forall k :: j < k <= i ==> a[k] == done[k - 1]
      invariant forall k :: j <= k < i ==> before(x, done[k])
      invariant forall k :: i < k < a.Length ==> a[k] == old(a[k])
    {
      a[j], a[j - 1] := a[j - 1], a[j];
      j := j - 1;
    }
    InsertAt(before, done, x, j);
    assert a[..i + 1] == done[..j] + [x] + done[j..];
  }

  method Sort<T>(before: Comparator<T>, a: array<T>)
    modifies a
    ensures a[..] == InsertAll(before, old(a[..]))
  {
    ghost var was := a[..];
    var i := 0;
    while i < a.Length
      invariant 0 <= i <= a.Length
      invariant a[..i] == InsertAll(before, was[..i])
      invariant forall k :: i <= k < a.Length ==> a[k] == was[k]
    {
      assert was[..i + 1][..i] == was[..i];
      Sink(before, a, i);
      i := i + 1;
    }
    assert a[..] == a[..i] && was == was[..i];
  }
}
