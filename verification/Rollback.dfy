/** Choosing the ReplicaSet to roll back to (internal/selfheal/actions.go:181-220). */
module Rollback {
  import opened Common
  import Memory
  import Sorting

  /** A pod template's spec: its containers and all the rest of it. */
  datatype PodSpec = PodSpec(containers: seq<Memory.Container>, rest: string)

  /** A ReplicaSet: the UIDs of its owners, its revision annotation as strconv.ParseInt reads it, its template's spec. */
  datatype ReplicaSet = ReplicaSet(name: string, owners: seq<string>, revision: int, spec: PodSpec)

  predicate OwnedBy(rs: ReplicaSet, uid: string) { uid in rs.owners }

  function Owned(items: seq<ReplicaSet>, uid: string): seq<ReplicaSet> {
    if |items| == 0 then []
    else
      var rest := Owned(items[..|items| - 1], uid);
      if OwnedBy(items[|items| - 1], uid) then rest + [items[|items| - 1]] else rest
  }

  /** What sort.Slice may return: some descending arrangement, ties in any order. */
  ghost predicate SortedVersion(s: seq<ReplicaSet>, owns: seq<ReplicaSet>) {
    multiset(s) == multiset(owns) && Sorting.Sorted(Newer, s)
  }

  predicate Newer(a: ReplicaSet, b: ReplicaSet) { a.revision > b.revision }

  /** rs comes second among the sets of m by descending revision, right behind top. */
  ghost predicate RightBehind(rs: ReplicaSet, top: ReplicaSet, m: multiset<ReplicaSet>) {
    && multiset{rs, top} <= m && top.revision >= rs.revision
    && forall x :: x in m - multiset{rs, top} ==> x.revision <= rs.revision
  }

  /** The second order statistic: some other set is at least as new, every remaining one at most as new. */
  ghost predicate SecondHighest(rs: ReplicaSet, owns: seq<ReplicaSet>) {
    exists top :: RightBehind(rs, top, multiset(owns))
  }

  method PreviousReplicaSet(items: seq<ReplicaSet>, uid: string) returns (prev: Option<ReplicaSet>)
    ensures prev.Some? <==> |Owned(items, uid)| >= 2
    ensures prev.Some? ==> SecondHighest(prev.value, Owned(items, uid))
  {
    var owns := [];
    for i := 0 to |items|
      invariant owns == Owned(items[..i], uid)
    {
      assert items[..i + 1][..i] == items[..i];
      if OwnedBy(items[i], uid) {
        owns := owns + [items[i]];
      }
    }
    assert items[..|items|] == items;
    if |owns| < 2 { return None; }
    var a := new ReplicaSet[|owns|](i requires 0 <= i < |owns| => owns[i]);
    assert a[..] == owns;
    Sorting.Sort(Newer, a);
    Sorting.InsertAllSorts(Newer, owns);
    SecondOfSorted(a[..], owns);
    return Some(a[1]);
  }

  /** Whatever order a descending sort gives to ties, its second entry is a second order statistic. */
  lemma SecondOfSorted(s: seq<ReplicaSet>, owns: seq<ReplicaSet>)
    requires SortedVersion(s, owns) && |owns| >= 2
    ensures |s| == |owns| && SecondHighest(s[1], owns)
  {
    assert |s| == |multiset(s)| == |owns|;
    assert s == [s[0], s[1]] + s[2..];
    assert multiset(s) == multiset{s[1], s[0]} + multiset(s[2..]);
    forall x | x in multiset(owns) - multiset{s[1], s[0]} ensures x.revision <= s[1].revision {
      assert x in s[2..];
      var k :| 0 <= k < |s[2..]| && s[2..][k] == x;
      assert s[k + 2] == x;
    }
    assert RightBehind(s[1], s[0], multiset(owns));
  }

  lemma {:induction false} OwnedMembers(items: seq<ReplicaSet>, uid: string)
    ensures forall rs :: multiset(Owned(items, uid))[rs] == if uid in rs.owners then multiset(items)[rs] else 0
  {
    if |items| > 0 {
      OwnedMembers(items[..|items| - 1], uid);
      assert items == items[..|items| - 1] + [items[|items| - 1]];
    }
  }

  /** No two entries of m share a revision. */
  ghost predicate DistinctRevisions(m: multiset<ReplicaSet>) {
    && (forall x, y :: x in m && y in m && x.revision == y.revision ==> x == y)
    && (forall x :: x in m ==> m[x] == 1)
  }

  /** With distinct revisions the answer does not depend on the order of the list. */
  lemma OrderIndependent(xs: seq<ReplicaSet>, ys: seq<ReplicaSet>, uid: string, a: ReplicaSet, b: ReplicaSet)
    requires multiset(xs) == multiset(ys) && DistinctRevisions(multiset(Owned(xs, uid)))
    requires SecondHighest(a, Owned(xs, uid)) && SecondHighest(b, Owned(ys, uid))
    ensures a == b
  {
    OwnedMembers(xs, uid);
    OwnedMembers(ys, uid);
    var m := multiset(Owned(xs, uid));
    assert m == multiset(Owned(ys, uid));
    var s :| RightBehind(a, s, m);
    var t :| RightBehind(b, t, m);
    NotNewer(m, a, s, b, t);
    NotNewer(m, b, t, a, s);
    assert a in multiset{a, s} && b in multiset{b, t};
  }

  lemma NotNewer(m: multiset<ReplicaSet>, a: ReplicaSet, s: ReplicaSet, b: ReplicaSet, t: ReplicaSet)
    requires DistinctRevisions(m) && RightBehind(a, s, m) && RightBehind(b, t, m)
    ensures a.revision <= b.revision
  {
    assert a in multiset{a, s} && s in multiset{a, s};
    assert a != s by { assert multiset{a, s}[a] <= m[a]; }
    if a.revision > b.revision {
      OnlyTopIsNewer(m, b, t, a);
      OnlyTopIsNewer(m, b, t, s);
    }
  }

  lemma OnlyTopIsNewer(m: multiset<ReplicaSet>, b: ReplicaSet, t: ReplicaSet, x: ReplicaSet)
    requires RightBehind(b, t, m) && x in m && x.revision > b.revision
    ensures x == t
  {
    assert (m - multiset{b, t})[x] == if x == t then m[x] - 1 else m[x];
  }
}
