/** The executors that rewrite a workload's pod template (internal/selfheal/actions.go:83-179), each on top of the
    conflict retry. */
module Patching {
  import opened Common
  import opened Decider
  import Memory
  import Retry
  import Rollback

  /** A Deployment, StatefulSet or DaemonSet, as far as executors read or write it. */
  datatype Workload = Workload(
    uid: string, labels: map<string, string>, annotations: Option<map<string, string>>, spec: Rollback.PodSpec)

  const RESTARTED_AT := "kubectl.kubernetes.io/restartedAt"

  function Restarted(w: Workload, now: string): Workload {
    w.(annotations := Some(w.annotations.GetOr(map[])[RESTARTED_AT := now]))
  }

  function Bumped(w: Workload, factor: real, cap: Option<nat>): Workload
    requires factor > 1.0
  {
    w.(spec := w.spec.(containers := Memory.BumpAll(w.spec.containers, factor, cap)))
  }

  function RolledBack(w: Workload, to: Rollback.ReplicaSet): Workload { w.(spec := to.spec) }

  // ---------- what a patch did, field by field ----------

  /** The restart annotation is `now`; every other annotation and everything else is as it was. */
  ghost predicate IsRestarted(was: Workload, next: Workload, now: string) {
    var before := if was.annotations.Some? then was.annotations.value else map[];
    && next.annotations.Some?
    && next.annotations.value.Keys == before.Keys + {"kubectl.kubernetes.io/restartedAt"}
    && next.annotations.value["kubectl.kubernetes.io/restartedAt"] == now
    && (forall k :: k in before && k != "kubectl.kubernetes.io/restartedAt" ==> next.annotations.value[k] == before[k])
    && next.uid == was.uid && next.labels == was.labels && next.spec == was.spec
  }

  /** Every container's memory was bumped once; nothing else of the template changed. */
  ghost predicate IsBumped(was: Workload, next: Workload, factor: real, cap: Option<nat>) {
    && |next.spec.containers| == |was.spec.containers|
    && (forall i :: 0 <= i < |was.spec.containers| ==>
         Memory.ContainerBumped(was.spec.containers[i], next.spec.containers[i], factor, cap))
    && next.spec.rest == was.spec.rest
    && next.uid == was.uid && next.labels == was.labels && next.annotations == was.annotations
  }

  /** The template's spec is that of the ReplicaSet; its metadata stays. */
  predicate IsRolledBack(was: Workload, next: Workload, to: Rollback.ReplicaSet) {
    next.spec == to.spec && next.uid == was.uid && next.labels == was.labels && next.annotations == was.annotations
  }

  lemma BumpedExact(w: Workload, factor: real, cap: Option<nat>)
    requires factor > 1.0
    ensures IsBumped(w, Bumped(w, factor, cap), factor, cap)
  {
    forall i | 0 <= i < |w.spec.containers|
      ensures Memory.ContainerBumped(w.spec.containers[i], Bumped(w, factor, cap).spec.containers[i], factor, cap)
    {
      Memory.BumpContainerExact(w.spec.containers[i], factor, cap);
    }
  }

  /** Exactly one version of ours was committed: the last one. */
  twostate predicate PatchedOnce(o: Retry.ApiObject<Workload>)
    reads o
  {
    |o.history| >= 2 && old(o.history) <= o.history && o.own == old(o.own) + [|o.history| - 1]
  }

  /** Nothing of ours was committed. */
  twostate predicate LeftAlone(o: Retry.ApiObject<Workload>)
    reads o
  {
    old(o.history) <= o.history && o.own == old(o.own)
  }

  predicate HasTemplate(kind: Kind) { kind in {Deployment, StatefulSet, DaemonSet} }

  method RestartWorkload(o: Retry.ApiObject<Workload>, kind: Kind, now: string, describe: (Workload, Workload) -> string, steps: nat)
    returns (detail: string, ok: bool)
    modifies o
    ensures !ExecutorAccepts(RestartExec, kind) ==> !ok && o.Now() == old(o.Now())
    ensures ExecutorAccepts(RestartExec, kind) ==> (ok <==> Retry.Lands(old(o.script), |old(o.history)|, steps))
    ensures ok ==>
      && PatchedOnce(o) && IsRestarted(o.history[|o.history| - 2], o.history[|o.history| - 1], now)
      && detail == describe(o.history[|o.history| - 2], o.history[|o.history| - 1])
    ensures !ok ==> LeftAlone(o)
    ensures ExecutorAccepts(RestartExec, kind) && old(Retry.Live(o.script)) && old(o.history) != [] && !ok ==>
      |o.history| >= |old(o.history)| + steps
  {
    if !HasTemplate(kind) { return "", false; }
    detail, ok := Retry.PatchTemplate(o, (w: Workload) => Restarted(w, now), describe, steps);
  }

  /** A policy's texts and the library's parsers for them. */
  datatype MemoryPolicy = MemoryPolicy(factor: Option<string>, cap: Option<string>,
                                       parse: string -> Option<Memory.Float>, quantity: string -> Option<nat>)

  /** The factor and the cap, or the first of their errors. */
  function BumpSettings(p: MemoryPolicy): (r: Result<(Memory.Float, Option<nat>)>)
    ensures r.Ok? && r.value.0.Finite? ==> r.value.0.value > 1.0
  {
    var f := Memory.ParseFactor(p.parse, p.factor);
    if f.Err? then Err(f.reason)
    else if p.cap.None? || p.cap.value == "" then Ok((f.value, None))
    else if p.quantity(p.cap.value).None? then Err("invalid memoryMaxLimit")
    else Ok((f.value, p.quantity(p.cap.value)))
  }

  /** The settings in force under a policy: the default factor or the text's own, no cap or the text's own. */
  ghost predicate Settles(p: MemoryPolicy, f: Memory.Float, cap: Option<nat>) {
    && (if p.factor == None || p.factor == Some("") then f == Memory.Finite(1.5)
        else p.parse(p.factor.value) == Some(f) && (f == Memory.NotANumber || Memory.AboveOne(f)))
    && (if p.cap == None || p.cap == Some("") then cap == None
        else cap.Some? && p.quantity(p.cap.value) == cap)
  }

  lemma BumpSettingsExact(p: MemoryPolicy, f: Memory.Float, cap: Option<nat>)
    ensures BumpSettings(p) == Ok((f, cap)) <==> Settles(p, f, cap)
  {
    if p.factor.Some? && p.factor.value != "" { Memory.FactorAcceptedIff(p.parse, p.factor.value, f); }
  }

  /** What one run of bumpMemory makes of a workload; `wild` is the platform's conversion of a product that is not finite. */
  function BumpedBy(w: Workload, p: MemoryPolicy, wild: Workload -> Workload): Workload {
    match BumpSettings(p)
    case Ok((Finite(f), cap)) => Bumped(w, f, cap)
    case _ => wild(w)
  }

  lemma BumpedByExact(w: Workload, p: MemoryPolicy, wild: Workload -> Workload)
    ensures forall f, cap :: f > 1.0 && Settles(p, Memory.Finite(f), cap) ==> IsBumped(w, BumpedBy(w, p, wild), f, cap)
  {
    forall f, cap | f > 1.0 && Settles(p, Memory.Finite(f), cap) ensures IsBumped(w, BumpedBy(w, p, wild), f, cap) {
      BumpSettingsExact(p, Memory.Finite(f), cap);
      BumpedExact(w, f, cap);
    }
  }

  /** bumpMemory: on success the last version is one bump of the version directly before it, never two. */
  method BumpMemory(o: Retry.ApiObject<Workload>, kind: Kind, p: MemoryPolicy, wild: Workload -> Workload,
                    describe: (Workload, Workload) -> string, steps: nat)
    returns (detail: string, ok: bool)
    modifies o
    ensures BumpSettings(p).Err? || !ExecutorAccepts(BumpExec, kind) ==> !ok && o.Now() == old(o.Now())
    ensures BumpSettings(p).Ok? && ExecutorAccepts(BumpExec, kind) ==>
      (ok <==> Retry.Lands(old(o.script), |old(o.history)|, steps))
    ensures ok ==>
      && PatchedOnce(o)
      && o.history[|o.history| - 1] == BumpedBy(o.history[|o.history| - 2], p, wild)
      && (forall f, cap :: f > 1.0 && Settles(p, Memory.Finite(f), cap) ==>
           IsBumped(o.history[|o.history| - 2], o.history[|o.history| - 1], f, cap))
      && detail == describe(o.history[|o.history| - 2], o.history[|o.history| - 1])
    ensures !ok ==> LeftAlone(o)
    ensures BumpSettings(p).Ok? && ExecutorAccepts(BumpExec, kind) && old(Retry.Live(o.script)) && old(o.history) != [] && !ok ==>
      |o.history| >= |old(o.history)| + steps
  {
    var settings := BumpSettings(p);
    if settings.Err? || !HasTemplate(kind) { return "", false; }
    detail, ok := Retry.PatchTemplate(o, (w: Workload) => BumpedBy(w, p, wild), describe, steps);
    if ok {
      BumpedByExact(o.history[|o.history| - 2], p, wild);
    }
  }

  /** rollbackDeployment: the template's spec becomes that of a second-newest owned ReplicaSet; its metadata stays. */
  method RollbackDeployment(o: Retry.ApiObject<Workload>, kind: Kind, items: seq<Rollback.ReplicaSet>, steps: nat)
    returns (to: Option<Rollback.ReplicaSet>, ok: bool)
    modifies o
    ensures !ExecutorAccepts(RollbackExec, kind) ==> !ok && o.Now() == old(o.Now())
    // it succeeds when the Deployment can be read, owns two ReplicaSets, and an attempt of the patch lands
    ensures ExecutorAccepts(RollbackExec, kind) ==>
      var seen, after := Retry.Seen(old(o.Now())), Retry.Moved(old(o.Now()));
      ok <==> seen.Found? && |Rollback.Owned(items, seen.obj.uid)| >= 2 && Retry.Lands(after.script, |after.history|, steps)
    ensures ok ==>
      && to.Some? && PatchedOnce(o) && IsRolledBack(o.history[|o.history| - 2], o.history[|o.history| - 1], to.value)
      && exists seen :: seen in o.history && Rollback.SecondHighest(to.value, Rollback.Owned(items, seen.uid))
    ensures !ok ==> LeftAlone(o)
  {
    hide Retry.Lands, Retry.Live, Retry.Seen, Retry.Moved, Rollback.Owned, Rollback.SecondHighest;
    to, ok := None, false;
    if kind != Deployment { return; }
    var dep := o.Get();
    if !dep.Found? { return; }
    to := Rollback.PreviousReplicaSet(items, dep.obj.uid);
    if to.None? { return; }
    assert dep.obj in o.history;
    var target := to.value;
    var _, patched := Retry.PatchTemplate(o, (w: Workload) => RolledBack(w, target), (was: Workload, now: Workload) => "", steps);
    ok := patched;
  }

  // ---------- dispatch ----------

  /** What an executor run is given besides its subject. */
  datatype Inputs = Inputs(now: string, policy: MemoryPolicy, wild: Workload -> Workload, describe: (Workload, Workload) -> string,
                           items: seq<Rollback.ReplicaSet>)

  /**
   executors and the run of the executor it names: each action does what its name says to the workload, in one version
   of its own; deleting a pod leaves the workload alone, and so does an action without an executor.
   */
  method Execute(o: Retry.ApiObject<Workload>, action: Action, kind: Kind, env: Inputs, steps: nat) returns (ok: bool)
    modifies o
    ensures !ok ==> LeftAlone(o)
    ensures ok ==> PatchedOnce(o) && action in {Action.RestartWorkload, Action.BumpMemory, Action.RollbackDeployment}
    ensures ok && action == Action.RestartWorkload ==> IsRestarted(o.history[|o.history| - 2], o.history[|o.history| - 1], env.now)
    ensures ok && action == Action.BumpMemory ==> forall f, cap :: f > 1.0 && Settles(env.policy, Memory.Finite(f), cap) ==>
      IsBumped(o.history[|o.history| - 2], o.history[|o.history| - 1], f, cap)
    ensures ok && action == Action.RollbackDeployment ==> exists to, seen ::
      && seen in o.history && Rollback.SecondHighest(to, Rollback.Owned(env.items, seen.uid))
      && IsRolledBack(o.history[|o.history| - 2], o.history[|o.history| - 1], to)
    // an action supported on the kind is carried out if its attempts land
    ensures action == Action.RestartWorkload && KindSupports(kind, action) ==> (ok <==> Retry.Lands(old(o.script), |old(o.history)|, steps))
    ensures action == Action.BumpMemory && KindSupports(kind, action) && BumpSettings(env.policy).Ok? ==>
      (ok <==> Retry.Lands(old(o.script), |old(o.history)|, steps))
  {
    hide IsRestarted, IsBumped, IsRolledBack, Settles, BumpSettings, BumpedBy, Rollback.Owned, Rollback.SecondHighest,
         Retry.Lands, Retry.Live, Retry.Seen, Retry.Moved;
    ok := false;
    var executor := Executors(action);
    if executor.None? { return; }
    match executor.value
    case DeletePodExec =>
    case RestartExec =>
      var _, done := RestartWorkload(o, kind, env.now, env.describe, steps);
      ok := done;
    case BumpExec =>
      var _, done := BumpMemory(o, kind, env.policy, env.wild, env.describe, steps);
      ok := done;
    case RollbackExec =>
      var to, done := RollbackDeployment(o, kind, env.items, steps);
      ok := done;
  }
}
