/** The bounded owner walk and the subject it yields (internal/forensics/topology.go:29-87,
    internal/controller/pod_controller.go:149-165). */
module Topology {
  import opened Common

  datatype OwnerRef = OwnerRef(apiVersion: string, kind: string, name: string, controller: Option<bool>)

  datatype OwnerRecord = OwnerRecord(apiVersion: string, kind: string, name: string)

  datatype Subject = Subject(apiVersion: string, kind: string, name: string, ns: string, uid: string)

  /** One namespace of the cluster: the owner references of the object a record names, or None
      when its group version does not parse or the object cannot be fetched. */
  type Graph = OwnerRecord -> Option<seq<OwnerRef>>

  const MAX_OWNER_DEPTH: nat := 6

  predicate Controls(r: OwnerRef) { r.controller == Some(true) }

  /** The first reference marked as controller, otherwise the first one. */
  method ControllerRef(owners: seq<OwnerRef>) returns (r: Option<OwnerRef>)
    ensures r == ControllerOf(owners)
    ensures r == None <==> owners == []
    ensures forall i ::
      (&& 0 <= i < |owners| && owners[i].controller == Some(true)
       && (forall j :: 0 <= j < i ==> owners[j].controller != Some(true))) ==> r == Some(owners[i])
    ensures (owners != [] && forall j :: 0 <= j < |owners| ==> owners[j].controller != Some(true)) ==> r == Some(owners[0])
  {
    for i := 0 to |owners|
      invariant forall j :: 0 <= j < i ==> !Controls(owners[j])
    {
      if owners[i].controller.Some? && owners[i].controller.value {
        FirstController(owners, i);
        return Some(owners[i]);
      }
    }
    NoController(owners);
    if |owners| > 0 { return Some(owners[0]); }
    return None;
  }

  function ControllerOf(owners: seq<OwnerRef>): Option<OwnerRef> {
    if |owners| == 0 then None
    else
      var marked := Marked(owners);
      if marked.Some? then marked else Some(owners[0])
  }

  function Marked(owners: seq<OwnerRef>): Option<OwnerRef> {
    if |owners| == 0 then None else if Controls(owners[0]) then Some(owners[0]) else Marked(owners[1..])
  }

  lemma {:induction false} FirstController(owners: seq<OwnerRef>, i: nat)
    requires i < |owners| && Controls(owners[i]) && forall j :: 0 <= j < i ==> !Controls(owners[j])
    ensures Marked(owners) == Some(owners[i])
  {
    if i > 0 { FirstController(owners[1..], i - 1); }
  }

  lemma {:induction false} NoController(owners: seq<OwnerRef>)
    requires forall j :: 0 <= j < |owners| ==> !Controls(owners[j])
    ensures Marked(owners) == None
  {
    if |owners| > 0 { NoController(owners[1..]); }
  }

  function RecordOf(r: OwnerRef): OwnerRecord { OwnerRecord(r.apiVersion, r.kind, r.name) }

  /** The walk with a budget of `hops`. */
  function Walk(g: Graph, owners: seq<OwnerRef>, hops: nat): seq<OwnerRecord>
    decreases hops
  {
    var ref := ControllerOf(owners);
    if hops == 0 || ref.None? then []
    else
      var rec := RecordOf(ref.value);
      [rec] + (if g(rec).None? then [] else Walk(g, g(rec).value, hops - 1))
  }

  /** The walk comes to its own end without needing more than `hops`. */
  predicate Ends(g: Graph, owners: seq<OwnerRef>, hops: nat)
    decreases hops
  {
    var ref := ControllerOf(owners);
    ref.None? || (hops > 0 && (g(RecordOf(ref.value)).None? || Ends(g, g(RecordOf(ref.value)).value, hops - 1)))
  }

  /** The walk from the object a record names, starting at that object. */
  predicate EndsFrom(g: Graph, rec: OwnerRecord, hops: nat) {
    g(rec).None? || Ends(g, g(rec).value, hops)
  }

  /** One hop of the walk. */
  lemma WalkHop(g: Graph, owners: seq<OwnerRef>, hops: nat, done: seq<OwnerRecord>)
    requires hops > 0 && ControllerOf(owners).Some?
    ensures var rec := RecordOf(ControllerOf(owners).value);
      done + Walk(g, owners, hops) == (done + [rec]) + (if g(rec).None? then [] else Walk(g, g(rec).value, hops - 1))
  {
  }

  function WalkFrom(g: Graph, rec: OwnerRecord, hops: nat): seq<OwnerRecord> {
    if g(rec).None? then [] else Walk(g, g(rec).value, hops)
  }

  method WalkUp(g: Graph, start: seq<OwnerRef>, cap: nat) returns (chain: seq<OwnerRecord>)
    ensures chain == Walk(g, start, cap)
  {
    chain := [];
    var owners := start;
    ghost var whole := Walk(g, start, cap);
    var depth := 0;
    while depth < cap
      invariant depth <= cap
      invariant whole == chain + Walk(g, owners, cap - depth)
    {
      var ref := ControllerRef(owners);
      if ref.None? {
        break;
      }
      WalkHop(g, owners, cap - depth, chain);
      chain := chain + [RecordOf(ref.value)];
      var fetched := g(RecordOf(ref.value));
      if fetched.None? {
        assert whole == chain;
        return;
      }
      owners := fetched.value;
      depth := depth + 1;
    }
  }

  method OwnerChain(g: Graph, start: seq<OwnerRef>) returns (chain: seq<OwnerRecord>)
    ensures chain == Walk(g, start, 6)
  {
    chain := WalkUp(g, start, MAX_OWNER_DEPTH);
  }

  /** On any graph, cycles included: at most `hops` records, and each is the controller reference
      of the object the previous record names. */
  lemma {:induction false} ChainLinks(g: Graph, start: seq<OwnerRef>, hops: nat, i: nat)
    requires i < |Walk(g, start, hops)|
    ensures |Walk(g, start, hops)| <= hops
    ensures var chain := Walk(g, start, hops);
      var owners := if i == 0 then Some(start) else g(chain[i - 1]);
      owners.Some? && ControllerOf(owners.value).Some? && chain[i] == RecordOf(ControllerOf(owners.value).value)
    decreases hops
  {
    var rec := RecordOf(ControllerOf(start).value);
    if g(rec).Some? && |Walk(g, g(rec).value, hops - 1)| > 0 {
      ChainLinks(g, g(rec).value, hops - 1, if i == 0 then 0 else i - 1);
    }
  }

  /** A walk that ends by itself does not depend on the budget left over. */
  lemma {:induction false} BudgetIrrelevant(g: Graph, owners: seq<OwnerRef>, m: nat, n: nat)
    requires m <= n && Ends(g, owners, m)
    ensures Walk(g, owners, m) == Walk(g, owners, n) && Ends(g, owners, n)
    decreases m
  {
    var ref := ControllerOf(owners);
    if ref.Some? && g(RecordOf(ref.value)).Some? {
      BudgetIrrelevant(g, g(RecordOf(ref.value)).value, m - 1, n - 1);
    }
  }

  lemma ChainTail(g: Graph, start: seq<OwnerRef>, hops: nat)
    requires |Walk(g, start, hops)| > 0
    ensures hops > 0 && ControllerOf(start).Some?
    ensures var rec := RecordOf(ControllerOf(start).value);
      Walk(g, start, hops)[0] == rec && Walk(g, start, hops)[1..] == WalkFrom(g, rec, hops - 1)
  {
  }

  /** What follows a record in a chain is the walk from its object with the remaining budget. */
  lemma {:induction false} ChainSuffix(g: Graph, start: seq<OwnerRef>, hops: nat, i: nat)
    requires i < |Walk(g, start, hops)|
    ensures i < hops
    ensures Walk(g, start, hops)[i + 1..] == WalkFrom(g, Walk(g, start, hops)[i], hops - 1 - i)
    decreases hops
  {
    var rec := RecordOf(ControllerOf(start).value);
    var chain := Walk(g, start, hops);
    ChainTail(g, start, hops);
    if i > 0 {
      hide ControllerOf, Walk;
      ChainSuffix(g, g(rec).value, hops - 1, i - 1);
      assert chain[i] == chain[1..][i - 1];
      assert chain[i + 1..] == chain[1..][i..];
    }
  }

  function TopOwner(chain: seq<OwnerRecord>): OwnerRecord {
    if |chain| == 0 then OwnerRecord("", "", "") else chain[|chain| - 1]
  }

  datatype PodId = PodId(name: string, ns: string, uid: string)

  function WorkloadSubject(pod: PodId, owners: seq<OwnerRecord>): Subject {
    var top := TopOwner(owners);
    if top.name != "" then Subject(top.apiVersion, top.kind, top.name, pod.ns, "")
    else Subject("v1", "Pod", pod.name, pod.ns, pod.uid)
  }

  /** The subject is the last object of the walk if that has a name, otherwise the pod itself, in the pod's namespace. */
  lemma SubjectIs(pod: PodId, g: Graph, start: seq<OwnerRef>, cap: nat)
    ensures var chain, subject := Walk(g, start, cap), WorkloadSubject(pod, Walk(g, start, cap));
      && subject.ns == pod.ns
      && if chain != [] && chain[|chain| - 1].name != "" then
           var top := chain[|chain| - 1];
           subject.apiVersion == top.apiVersion && subject.kind == top.kind && subject.name == top.name && subject.uid == ""
         else subject.apiVersion == "v1" && subject.kind == "Pod" && subject.name == pod.name && subject.uid == pod.uid
  {
  }

  /** A larger budget continues a walk, and strictly so if the smaller one did not see its end. */
  lemma {:induction false} BudgetExtends(g: Graph, owners: seq<OwnerRef>, m: nat, n: nat)
    requires m <= n
    ensures Walk(g, owners, m) <= Walk(g, owners, n)
    ensures m < n && !Ends(g, owners, m) ==> |Walk(g, owners, m)| < |Walk(g, owners, n)|
    decreases m
  {
    var ref := ControllerOf(owners);
    if m > 0 && ref.Some? && g(RecordOf(ref.value)).Some? {
      BudgetExtends(g, g(RecordOf(ref.value)).value, m - 1, n - 1);
    }
  }

  /** The walk from `a` meets the walk from `b`, having made no more hops to get there. */
  ghost predicate Meet(g: Graph, a: seq<OwnerRef>, b: seq<OwnerRef>, i: nat, j: nat, cap: nat) {
    i <= j < cap && i < |Walk(g, a, cap)| && j < |Walk(g, b, cap)| && Walk(g, a, cap)[i] == Walk(g, b, cap)[j]
  }

  /** Both walks stop at the same object: they met after equally many hops, or the later one still saw the end. */
  ghost predicate SameEnd(g: Graph, b: seq<OwnerRef>, i: nat, j: nat, cap: nat)
    requires j < |Walk(g, b, cap)|
  {
    i == j || (j < cap && EndsFrom(g, Walk(g, b, cap)[j], cap - 1 - j))
  }

  lemma MeetingSuffixes(g: Graph, a: seq<OwnerRef>, b: seq<OwnerRef>, i: nat, j: nat, cap: nat)
    requires Meet(g, a, b, i, j, cap)
    ensures var s, t := Walk(g, a, cap)[i + 1..], Walk(g, b, cap)[j + 1..];
      if SameEnd(g, b, i, j, cap) then s == t else t < s
  {
    hide Walk, Ends;
    ChainSuffix(g, a, cap, i);
    ChainSuffix(g, b, cap, j);
    var rec := Walk(g, a, cap)[i];
    if g(rec).Some? {
      var m, n := cap - 1 - j, cap - 1 - i;
      BudgetExtends(g, g(rec).value, m, n);
      if i < j && EndsFrom(g, rec, m) { BudgetIrrelevant(g, g(rec).value, m, n); }
    }
  }

  /**
   Two pods of one namespace whose walks meet are grouped under the same subject if they made equally many hops to
   the meeting, or the later one's remaining hops reach the end of the walk.
   */
  lemma MeetingWalksShareSubject(g: Graph, p: PodId, q: PodId, a: seq<OwnerRef>, b: seq<OwnerRef>, i: nat, j: nat, cap: nat)
    requires p.ns == q.ns && Meet(g, a, b, i, j, cap) && SameEnd(g, b, i, j, cap)
    requires TopOwner(Walk(g, a, cap)).name != ""
    ensures WorkloadSubject(p, Walk(g, a, cap)) == WorkloadSubject(q, Walk(g, b, cap))
  {
    hide Walk;
    MeetingSuffixes(g, a, b, i, j, cap);
    TopOfSuffix(Walk(g, a, cap), i);
    TopOfSuffix(Walk(g, b, cap), j);
  }

  /** Named records, none of them twice. */
  ghost predicate DistinctlyNamed(s: seq<OwnerRecord>) {
    && (forall k, l :: 0 <= k < l < |s| ==> s[k] != s[l])
    && (forall k :: 0 <= k < |s| ==> s[k].name != "")
  }

  /** On a walk without repetition that is exact: otherwise the depth cap gives pods under one root different subjects. */
  lemma SharedSubjectIff(g: Graph, p: PodId, q: PodId, a: seq<OwnerRef>, b: seq<OwnerRef>, i: nat, j: nat, cap: nat)
    requires p.ns == q.ns && Meet(g, a, b, i, j, cap) && DistinctlyNamed(Walk(g, a, cap))
    ensures WorkloadSubject(p, Walk(g, a, cap)) == WorkloadSubject(q, Walk(g, b, cap)) <==> SameEnd(g, b, i, j, cap)
  {
    hide Walk;
    var s, t := Walk(g, a, cap), Walk(g, b, cap);
    if SameEnd(g, b, i, j, cap) {
      MeetingWalksShareSubject(g, p, q, a, b, i, j, cap);
    } else {
      MeetingSuffixes(g, a, b, i, j, cap);
      TopOfSuffix(t, j);
      var l := |t| - 1 - j;
      assert TopOwner(t) == s[i + l] by {
        if l > 0 { assert t[j + 1..][l - 1] == s[i + 1..][l - 1]; }
      }
      assert i + l < |s| - 1;
    }
  }

  lemma TopOfSuffix(s: seq<OwnerRecord>, i: nat)
    requires i < |s|
    ensures TopOwner(s) == TopOwner([s[i]] + s[i + 1..])
  {
  }

  /** A chain of owners n0 <- n1 <- n2 ..., one more than the walk may take. */
  function Deep(rec: OwnerRecord): Option<seq<OwnerRef>> {
    if 0 < |rec.name| < 8 then Some([OwnerRef("v1", "Node", rec.name + "n", Some(true))]) else None
  }

  /** The remaining-hops condition is needed: beyond the depth cap two pods under one root part. */
  lemma DepthCapSplitsSubjects(p: PodId, q: PodId)
    requires p.ns == q.ns
    ensures var low, high := [OwnerRef("v1", "Node", "n", Some(true))], [OwnerRef("v1", "Node", "nn", Some(true))];
      && Walk(Deep, low, MAX_OWNER_DEPTH)[1] == Walk(Deep, high, MAX_OWNER_DEPTH)[0]
      && WorkloadSubject(p, Walk(Deep, low, MAX_OWNER_DEPTH)) != WorkloadSubject(q, Walk(Deep, high, MAX_OWNER_DEPTH))
  {
    DeepWalk("n", 6);
    DeepWalk("nn", 6);
  }

  function Stack(name: string, hops: nat): seq<OwnerRecord>
    decreases hops
  {
    if hops == 0 then [] else [OwnerRecord("v1", "Node", name)] + Stack(name + "n", hops - 1)
  }

  lemma {:induction false} DeepWalk(name: string, hops: nat)
    requires 0 < |name| && |name| + hops <= 8
    ensures Walk(Deep, [OwnerRef("v1", "Node", name, Some(true))], hops) == Stack(name, hops)
    ensures |Stack(name, hops)| == hops
    ensures forall i :: 0 <= i < hops ==> Stack(name, hops)[i].name == name + Ns(i)
    decreases hops
  {
    if hops > 0 {
      DeepWalk(name + "n", hops - 1);
      var rest := Stack(name + "n", hops - 1);
      forall i | 0 < i < hops ensures Stack(name, hops)[i].name == name + Ns(i) {
        assert Stack(name, hops)[i] == rest[i - 1];
        assert (name + "n") + Ns(i - 1) == name + Ns(i);
      }
    }
  }

  function Ns(i: nat): string { seq(i, k => 'n') }
}
