/** Concrete interleavings on which tempting claims fail; the exact claims are in Theorems. */
module Witnesses {
  import opened Common
  import opened Diagnosis
  import opened Decider
  import opened Obituaries
  import opened Engine
  import opened Reconciles
  import opened Audit
  import Conservation
  import Theorems
  import Naming
  import RateLimit

  /** Self-heal on, no dry run, act on the first occurrence, one heal per window. */
  const EAGER := HealPolicy(true, Some(false), Some(1), None, Some(1), [])

  /** A Deployment's container killed by the OOM killer. */
  predicate OomDeployment(pm: Params, d: Death) {
    DeathOk(pm, d) && d.subject.kind == "Deployment" && d.evidence.oomKilled
  }

  // ---------- reachability ----------

  /** Some run ends in s. */
  ghost predicate Reachable(pm: Params, s: State) { exists steps :: Run(pm, 0, steps) == s }

  lemma InitReachable(pm: Params)
    ensures Reachable(pm, Init(0))
  {
    assert Run(pm, 0, []) == Init(0);
  }

  lemma OneMore(pm: Params, s: State, st: Step, s': State)
    requires Reachable(pm, s) && s' == Next(pm, s, st)
    ensures Reachable(pm, s')
  {
    var steps :| Run(pm, 0, steps) == s;
    assert (steps + [st])[..|steps|] == steps;
    assert Run(pm, 0, steps + [st]) == s';
  }

  // ---------- the life of one reconcile, undisturbed ----------

  function With(s: State, tid: nat, t: Thread): State { s.(threads := s.threads[tid := t]) }

  function ThreadAt(d: Death, pc: PC): Thread { Thread(d, pc, Pending, None, None, None, None) }

  /** The two versions a first death leaves. */
  function FirstVersions(pm: Params, tid: nat, d: Death): seq<Version> {
    [Version(Newborn(pm.lower, d), Created(tid, d)),
     Version(Newborn(pm.lower, d).(status := FirstStatus(pm.lower, d)), DeathWrite(tid, d))]
  }

  function Born(pm: Params, s: State, tid: nat, d: Death, pc: PC): State {
    s.(store := s.store[StoreKey(pm, d) := FirstVersions(pm, tid, d)],
       threads := s.threads[tid := Thread(d, pc, Returned(true, false, false, false), Some(1), None, None, None)])
  }

  /** It finds nothing, twice, and is about to create. */
  lemma GoCreate(pm: Params, s: State, tid: nat, d: Death)
    requires Reachable(pm, s) && DeathOk(pm, d) && tid !in s.threads
    ensures Reachable(pm, With(s, tid, ThreadAt(d, Lookup))) && Reachable(pm, With(s, tid, ThreadAt(d, UpsertGet)))
    ensures Reachable(pm, With(s, tid, ThreadAt(d, Create)))
  {
    hide FindingsOf, KeyOf, Naming.ObituaryName;
    var s1, s2, s3 := With(s, tid, ThreadAt(d, Lookup)), With(s, tid, ThreadAt(d, UpsertGet)), With(s, tid, ThreadAt(d, Create));
    OneMore(pm, s, Spawn(tid, d), s1);
    assert s2.threads == s1.threads[tid := ThreadAt(d, UpsertGet)];
    OneMore(pm, s1, Get(tid, Absent), s2);
    assert s3.threads == s2.threads[tid := ThreadAt(d, Create)];
    OneMore(pm, s2, Get(tid, Absent), s3);
  }

  /** It creates the object ... */
  lemma CreateStep(pm: Params, s: State, tid: nat, d: Death)
    requires StoreKey(pm, d) !in s.store
    ensures Next(pm, With(s, tid, ThreadAt(d, Create)), Put(tid, false)) ==
      With(s, tid, ThreadAt(d, WriteFirst)).(store := s.store[StoreKey(pm, d) := [FirstVersions(pm, tid, d)[0]]])
  {
    assert s.threads[tid := ThreadAt(d, Create)][tid := ThreadAt(d, WriteFirst)] == s.threads[tid := ThreadAt(d, WriteFirst)];
  }

  /** ... and writes the first status. */
  lemma FirstStep(pm: Params, s: State, tid: nat, d: Death)
    ensures Next(pm, With(s, tid, ThreadAt(d, WriteFirst)).(store := s.store[StoreKey(pm, d) := [FirstVersions(pm, tid, d)[0]]]), Put(tid, false))
      == Born(pm, s, tid, d, HealLookup)
  {
    var k, t := StoreKey(pm, d), Thread(d, HealLookup, Returned(true, false, false, false), Some(1), None, None, None);
    var store := s.store[k := [FirstVersions(pm, tid, d)[0]]];
    assert s.threads[tid := ThreadAt(d, WriteFirst)][tid := t] == s.threads[tid := t];
    assert store[k := FirstVersions(pm, tid, d)] == s.store[k := FirstVersions(pm, tid, d)];
    assert store[k] + [FirstVersions(pm, tid, d)[1]] == FirstVersions(pm, tid, d);
  }

  lemma Birth(pm: Params, s: State, tid: nat, d: Death)
    requires Reachable(pm, s) && DeathOk(pm, d) && tid !in s.threads && StoreKey(pm, d) !in s.store
    ensures Reachable(pm, Born(pm, s, tid, d, HealLookup))
  {
    GoCreate(pm, s, tid, d);
    CreateStep(pm, s, tid, d);
    FirstStep(pm, s, tid, d);
    var s1 := With(s, tid, ThreadAt(d, WriteFirst)).(store := s.store[StoreKey(pm, d) := [FirstVersions(pm, tid, d)[0]]]);
    OneMore(pm, With(s, tid, ThreadAt(d, Create)), Put(tid, false), s1);
    OneMore(pm, s1, Put(tid, false), Born(pm, s, tid, d, HealLookup));
  }

  const MEMORY_BUMP := Decision(BumpMemory, RuleApplied, "rule")

  function FirstHeal(pm: Params, tid: nat, d: Death): Heal {
    Heal(StoreKey(pm, d), 1, FirstVersions(pm, tid, d)[1].obit, EAGER, true, MEMORY_BUMP)
  }

  lemma EagerActs(pm: Params, tid: nat, d: Death)
    requires OomDeployment(pm, d)
    ensures Assess(pm.decode, FirstVersions(pm, tid, d)[1].obit, EAGER, true, None) == Assessment.Act(MEMORY_BUMP)
  {
    var o := FirstVersions(pm, tid, d)[1].obit;
    assert SubjectKind(o) == Deployment && o.status.findings.cause == OutOfMemory;
    ApplicableIsIntersection(Deployment, Allowlist(EAGER), BumpMemory);
  }

  lemma GoReserve(pm: Params, s: State, tid: nat, d: Death)
    requires Reachable(pm, s) && OomDeployment(pm, d) && tid !in s.threads && StoreKey(pm, d) !in s.store
    ensures Reachable(pm, Born(pm, s, tid, d, Reserving(FirstHeal(pm, tid, d))))
  {
    hide FindingsOf, KeyOf, Naming.ObituaryName, Assess, FirstStatus, Newborn, StoreAfterPut, ThreadAfterPut, AfterGet;
    Birth(pm, s, tid, d);
    EagerActs(pm, tid, d);
    var s1, s2 := Born(pm, s, tid, d, HealLookup), Born(pm, s, tid, d, Reserving(FirstHeal(pm, tid, d)));
    assert s2.threads == s1.threads[tid := s1.threads[tid].(pc := Reserving(FirstHeal(pm, tid, d)))];
    OneMore(pm, s1, Judge(tid, At(1), EAGER, true, None), s2);
  }

  /** A reservation on a namespace whose remembered grants have all expired is granted. */
  lemma CallGrants(l: RateLimit.Ledger, ns: string, window: int)
    requires window > 0
    requires RateLimit.Entries(l.memory, ns) == [] || RateLimit.Entries(l.memory, ns) == [l.clock - window]
    ensures RateLimit.Call(l, ns, window, 1) ==
      (RateLimit.Ledger(l.memory[ns := [l.clock]], l.log + [RateLimit.Grant(ns, l.clock, 1)], l.clock), true)
  {
    var h := RateLimit.Entries(l.memory, ns);
    assert h == [] || h[..0] == [];
    assert RateLimit.Kept(h, l.clock - window) == [];
    assert [] + [l.clock] == [l.clock];
  }

  /** The state in which thread tid holds grant g under `ledger`. */
  function Holding(pm: Params, s: State, tid: nat, d: Death, g: nat, ledger: RateLimit.Ledger): State {
    Born(pm, s, tid, d, Lookup).(
      threads := s.threads[tid := Thread(d, Granted(FirstHeal(pm, tid, d), g), Returned(true, false, false, false), Some(1), Some(g), None, None)],
      ledger := ledger, receipts := s.receipts + [Receipt(tid, None)])
  }

  lemma GoGrant(pm: Params, s: State, tid: nat, d: Death)
    requires Reachable(pm, s) && OomDeployment(pm, d) && tid !in s.threads && StoreKey(pm, d) !in s.store && pm.window > 0
    requires var m := RateLimit.Entries(s.ledger.memory, d.subject.ns); m == [] || m == [s.ledger.clock - pm.window]
    ensures Reachable(pm, Holding(pm, s, tid, d, |s.ledger.log|, RateLimit.Call(s.ledger, d.subject.ns, pm.window, 1).0))
  {
    hide FindingsOf, KeyOf, Naming.ObituaryName, Assess, FirstStatus, StoreAfterPut, ThreadAfterPut, AfterGet, AfterJudge, RateLimit.ReserveOne;
    GoReserve(pm, s, tid, d);
    CallGrants(s.ledger, d.subject.ns, pm.window);
    var s1 := Born(pm, s, tid, d, Reserving(FirstHeal(pm, tid, d)));
    var s2 := Holding(pm, s, tid, d, |s.ledger.log|, RateLimit.Call(s.ledger, d.subject.ns, pm.window, 1).0);
    assert s2.threads == s1.threads[tid := s2.threads[tid]];
    OneMore(pm, s1, Reserve(tid), s2);
  }

  // ---------- more starts than the cap in one window of start times ----------

  function Started(s: State, tid: nat, h: Heal, g: nat): State
    requires g < |s.receipts| && tid in s.threads
  {
    s.(events := s.events + [HealEvent(ExecutorStart, g, s.ledger.clock, h)],
       receipts := s.receipts[g := Receipt(tid, Some(|s.events|))],
       threads := s.threads[tid := s.threads[tid].(pc := Executing(h, g, false))])
  }

  /** Settling a grant outside dry-run starts the executor now. */
  lemma StartNow(pm: Params, s: State, tid: nat, h: Heal, g: nat)
    requires Reachable(pm, s) && tid in s.threads && s.threads[tid].pc == Granted(h, g) && g < |s.receipts|
    requires h.policy == EAGER && h.decision == MEMORY_BUMP
    ensures Reachable(pm, Started(s, tid, h, g))
  {
    OneMore(pm, s, Settle(tid), Started(s, tid, h, g));
  }

  lemma GoTick(pm: Params, s: State, wait: nat) returns (s': State)
    requires Reachable(pm, s)
    ensures Reachable(pm, s') && s' == s.(ledger := s.ledger.(clock := s.ledger.clock + wait))
  {
    s' := s.(ledger := s.ledger.(clock := s.ledger.clock + wait));
    OneMore(pm, s, Tick(wait), s');
  }

  /** The first reconcile takes its grant at time 0 and starts its executor `pause` later. */
  lemma FirstStart(pm: Params, d: Death, pause: nat) returns (s: State)
    requires pm.window > 0 && OomDeployment(pm, d)
    ensures Reachable(pm, s) && s.threads.Keys == {0} && s.store.Keys == {StoreKey(pm, d)}
    ensures s.threads[0] == Thread(d, Executing(FirstHeal(pm, 0, d), 0, false), Returned(true, false, false, false), Some(1), Some(0), None, None)
    ensures s.events == [HealEvent(ExecutorStart, 0, pause, FirstHeal(pm, 0, d))] && |s.receipts| == 1
    ensures s.ledger == RateLimit.Ledger(map[d.subject.ns := [0]], [RateLimit.Grant(d.subject.ns, 0, 1)], pause)
  {
    InitReachable(pm);
    GoGrant(pm, Init(0), 0, d);
    CallGrants(Init(0).ledger, d.subject.ns, pm.window);
    s := Holding(pm, Init(0), 0, d, 0, RateLimit.Call(Init(0).ledger, d.subject.ns, pm.window, 1).0);
    s := GoTick(pm, s, pause);
    StartNow(pm, s, 0, FirstHeal(pm, 0, d), 0);
    s := Started(s, 0, FirstHeal(pm, 0, d), 0);
  }

  /** The second takes its grant one window after the first, and starts at once. */
  lemma SecondStart(pm: Params, s0: State, d1: Death, d2: Death, pause: nat) returns (s: State)
    requires pm.window > 0 && pause <= pm.window && OomDeployment(pm, d2)
    requires d1.subject.ns == d2.subject.ns && StoreKey(pm, d1) != StoreKey(pm, d2)
    requires Reachable(pm, s0) && s0.threads.Keys == {0} && s0.store.Keys == {StoreKey(pm, d1)}
    requires s0.events == [HealEvent(ExecutorStart, 0, pause, FirstHeal(pm, 0, d1))] && |s0.receipts| == 1
    requires s0.ledger == RateLimit.Ledger(map[d1.subject.ns := [0]], [RateLimit.Grant(d1.subject.ns, 0, 1)], pause)
    ensures Reachable(pm, s)
    ensures s.events == [HealEvent(ExecutorStart, 0, pause, FirstHeal(pm, 0, d1)), HealEvent(ExecutorStart, 1, pm.window, FirstHeal(pm, 1, d2))]
    ensures s.ledger.log == [RateLimit.Grant(d1.subject.ns, 0, 1), RateLimit.Grant(d1.subject.ns, pm.window, 1)]
  {
    hide FindingsOf, KeyOf, Naming.ObituaryName, StoreKey, Next, RateLimit.ReserveOne;
    var ns := d1.subject.ns;
    var s1 := GoTick(pm, s0, pm.window - pause);
    assert RateLimit.Entries(s1.ledger.memory, ns) == [s1.ledger.clock - pm.window];
    GoGrant(pm, s1, 1, d2);
    CallGrants(s1.ledger, ns, pm.window);
    var s2 := Holding(pm, s1, 1, d2, 1, RateLimit.Call(s1.ledger, ns, pm.window, 1).0);
    StartNow(pm, s2, 1, FirstHeal(pm, 1, d2), 1);
    s := Started(s2, 1, FirstHeal(pm, 1, d2), 1);
  }

  /** With caps of one, two starts in one window of the clock, each at most `pause` after its reservation. */
  lemma StartsByClockExceedCap(pm: Params, d1: Death, d2: Death, pause: nat) returns (s: State)
    requires pm.window > 0 && 0 < pause <= pm.window && OomDeployment(pm, d1) && OomDeployment(pm, d2)
    requires d1.subject.ns == d2.subject.ns && StoreKey(pm, d1) != StoreKey(pm, d2)
    ensures Reachable(pm, s) && Theorems.Prompt(s, pause)
    ensures !Theorems.ClockBounded(s, d1.subject.ns, pm.window, pm.window)
    ensures forall i :: 0 <= i < |s.ledger.log| ==> s.ledger.log[i].cap == 1
  {
    hide FindingsOf, KeyOf, Naming.ObituaryName, Next, StoreKey;
    s := FirstStart(pm, d1, pause);
    s := SecondStart(pm, s, d1, d2, pause);
    TwoStarts(s, d1.subject.ns, pm.window);
    assert RateLimit.InWindow(s.ledger.log[1], d1.subject.ns, 0, pm.window);
  }

  lemma TwoStarts(s: State, ns: string, window: int)
    requires |s.events| == 2
    requires forall e :: e in s.events ==> e.kind.ExecutorStart? && 0 < e.at <= window && HealNs(e.heal) == ns
    ensures |Theorems.StartsAt(s, ns, 0, window)| == 2
  {
    assert s.events[0] in s.events && s.events[1] in s.events;
    assert Theorems.StartsAt(s, ns, 0, window) == {0, 1};
  }

  /** In every run whose executors start at most `delay` after their reservation, every window is within its cap. */
  ghost predicate PromptRunsBounded(pm: Params, delay: nat) {
    forall s, ns, t :: Reachable(pm, s) && Theorems.Prompt(s, delay) ==> Theorems.ClockBounded(s, ns, t, pm.window)
  }

  /**
   Executor starts counted by the clock of the start stay within the cap exactly when a start never lags its
   reservation: any positive lag, however small, lets some run exceed a cap of one.
   */
  lemma ClockBoundExact(pm: Params, d1: Death, d2: Death, delay: nat)
    requires pm.window > 0 && OomDeployment(pm, d1) && OomDeployment(pm, d2)
    requires d1.subject.ns == d2.subject.ns && StoreKey(pm, d1) != StoreKey(pm, d2)
    ensures PromptRunsBounded(pm, delay) <==> delay == 0
  {
    if delay == 0 {
      PromptIsBounded(pm);
    } else {
      var pause := if delay <= pm.window then delay else pm.window;
      var s := StartsByClockExceedCap(pm, d1, d2, pause);
      PromptWeakens(s, pause, delay);
    }
  }

  lemma PromptIsBounded(pm: Params)
    requires pm.window > 0
    ensures PromptRunsBounded(pm, 0)
  {
    forall s, ns, t | Reachable(pm, s) && Theorems.Prompt(s, 0)
      ensures Theorems.ClockBounded(s, ns, t, pm.window)
    {
      var steps :| Run(pm, 0, steps) == s;
      Theorems.DelayedStartsWithinCap(pm, 0, steps, ns, t, 0);
    }
  }

  lemma PromptWeakens(s: State, pause: nat, delay: nat)
    requires Theorems.Prompt(s, pause) && pause <= delay
    ensures Theorems.Prompt(s, delay)
  {
    forall e: nat | e < |s.events| && s.events[e].kind.ExecutorStart? ensures Theorems.StartedWithin(s, e, delay) {
      assert Theorems.StartedWithin(s, e, pause);
    }
  }

  // ---------- what upsertObituary's results do not mean ----------

  /**
   "bumped" may be reported without any death having been counted by the call: the retried closure finds the
   episode already there and still returns no error.
   */
  lemma BumpedWithoutCounting(pm: Params, d: Death)
    requires DeathOk(pm, d)
    ensures exists s, tid ::
      && Reachable(pm, s) && tid in s.threads
      && s.threads[tid].upsert == Returned(false, true, false, false) && s.threads[tid].wrote == None
  {
    InitReachable(pm);
    Birth(pm, Init(0), 0, d);
    var s := Born(pm, Init(0), 0, d, HealLookup);
    GoCreate(pm, s, 1, d);
    StaleThenFresh(pm, s, 1, d);
    var s' := With(s, 1, ThreadAt(d, HealLookup).(upsert := Returned(false, true, false, false)));
    assert Reachable(pm, s') && s'.threads[1].wrote == None;
  }

  /** A reader of the newborn version retries, and its retry reads the version already counted. */
  lemma StaleThenFresh(pm: Params, s: State, tid: nat, d: Death)
    requires Reachable(pm, With(s, tid, ThreadAt(d, UpsertGet))) && DeathOk(pm, d)
    requires StoreKey(pm, d) in s.store && exists author :: s.store[StoreKey(pm, d)] == FirstVersions(pm, author, d)
    ensures Reachable(pm, With(s, tid, ThreadAt(d, HealLookup).(upsert := Returned(false, true, false, false))))
  {
    hide FindingsOf, KeyOf, Naming.ObituaryName;
    var s1, s2 := With(s, tid, ThreadAt(d, UpsertGet)), With(s, tid, ThreadAt(d, RetryGet(0)));
    assert s2.threads == s1.threads[tid := ThreadAt(d, RetryGet(0))];
    OneMore(pm, s1, Get(tid, At(0)), s2);
    var s3 := With(s, tid, ThreadAt(d, HealLookup).(upsert := Returned(false, true, false, false)));
    assert s3.threads == s2.threads[tid := s3.threads[tid]];
    OneMore(pm, s2, Get(tid, At(1)), s3);
  }

  /** Both results false need not mean "already counted": losing the race to create leaves a new episode uncounted. */
  lemma NeitherYetUncounted(pm: Params, d: Death, episode: string) returns (s: State, tid: nat)
    requires DeathOk(pm, d) && episode != "" && episode != d.episode
    ensures Reachable(pm, s) && tid in s.threads && s.threads[tid].d == d.(episode := episode)
    ensures s.threads[tid].upsert == Returned(false, false, false, true)
    ensures StoreKey(pm, s.threads[tid].d) in s.store && episode !in Episodes(Deaths(s.store[StoreKey(pm, s.threads[tid].d)]))
  {
    var d2 := d.(episode := episode);
    assert KeyOf(pm.lower, d2) == KeyOf(pm.lower, d);
    InitReachable(pm);
    Birth(pm, Init(0), 0, d);
    var s0 := Born(pm, Init(0), 0, d, HealLookup);
    GoCreate(pm, s0, 1, d2);
    assert StoreKey(pm, d2) == StoreKey(pm, d);
    hide FindingsOf, KeyOf, Naming.ObituaryName, Next, StoreKey;
    LoseCreateRace(pm, s0, 1, d2);
    OnlyDeath(pm, 0, d);
    s, tid := With(s0, 1, ThreadAt(d2, HealLookup).(upsert := Returned(false, false, false, true))), 1;
    assert s.store[StoreKey(pm, d)] == FirstVersions(pm, 0, d);
    assert Episodes([d]) == [d.episode];
  }

  lemma LoseCreateRace(pm: Params, s: State, tid: nat, d: Death)
    requires Reachable(pm, With(s, tid, ThreadAt(d, Create))) && StoreKey(pm, d) in s.store
    ensures Reachable(pm, With(s, tid, ThreadAt(d, HealLookup).(upsert := Returned(false, false, false, true))))
  {
    var s1, s2 := With(s, tid, ThreadAt(d, Create)), With(s, tid, ThreadAt(d, HealLookup).(upsert := Returned(false, false, false, true)));
    assert s2.threads == s1.threads[tid := s2.threads[tid]];
    OneMore(pm, s1, Put(tid, false), s2);
  }

  lemma OnlyDeath(pm: Params, tid: nat, d: Death)
    ensures Deaths(FirstVersions(pm, tid, d)) == [d]
  {
    var h := FirstVersions(pm, tid, d);
    assert h[..1] == [h[0]] && h[..1][..0] == [];
    assert Deaths(h[..1]) == [];
  }

  /** In every run a call that returned both results false without error, with the given answer to Create, left its episode counted. */
  ghost predicate BothFalseMeansCounted(pm: Params, raced: bool) {
    forall s, tid: nat ::
      Reachable(pm, s) && tid in s.threads && s.threads[tid].upsert == Returned(false, false, false, raced) ==>
        EpisodeCounted(pm, s.store, s.threads[tid].d)
  }

  /** The documented reading of two false results holds in all runs if and only if Create did not answer AlreadyExists. */
  lemma BothFalseExact(pm: Params, d: Death, episode: string, raced: bool)
    requires pm.window > 0 && DeathOk(pm, d) && episode != "" && episode != d.episode
    ensures BothFalseMeansCounted(pm, raced) <==> !raced
  {
    if raced {
      RacedUncounted(pm, d, episode);
    } else {
      forall s, tid: nat | Reachable(pm, s) && tid in s.threads && s.threads[tid].upsert == Returned(false, false, false, false)
        ensures EpisodeCounted(pm, s.store, s.threads[tid].d)
      {
        var steps :| Run(pm, 0, steps) == s;
        Theorems.ResultsMeanCounted(pm, 0, steps, tid);
      }
    }
  }

  lemma RacedUncounted(pm: Params, d: Death, episode: string)
    requires DeathOk(pm, d) && episode != "" && episode != d.episode
    ensures !BothFalseMeansCounted(pm, true)
  {
    hide Next, StoreKey, Episodes;
    var s, tid := NeitherYetUncounted(pm, d, episode);
    assert !EpisodeCounted(pm, s.store, s.threads[tid].d);
  }

  // ---------- an episode that returns ----------

  predicate LastIs(h: seq<Version>, episode: string) { h != [] && h[|h| - 1].obit.status.lastEpisode == episode }

  /** A reconcile of a known record, alone, reads the last version three times ... */
  lemma GoBump(pm: Params, s: State, tid: nat, d: Death)
    requires Reachable(pm, s) && DeathOk(pm, d) && tid !in s.threads
    requires StoreKey(pm, d) in s.store && s.store[StoreKey(pm, d)] != [] && !LastIs(s.store[StoreKey(pm, d)], d.episode)
    ensures var h := s.store[StoreKey(pm, d)];
      Reachable(pm, With(s, tid, ThreadAt(d, RetryUpdate(0, |h| - 1, h[|h| - 1].obit))))
  {
    hide StoreKey, StoreAfterPut, ThreadAfterPut, AfterJudge, RateLimit.Call, KindAfterGrant;
    var v := |s.store[StoreKey(pm, d)]| - 1;
    var seen := s.store[StoreKey(pm, d)][v].obit;
    var s1, s2 := With(s, tid, ThreadAt(d, Lookup)), With(s, tid, ThreadAt(d, UpsertGet));
    var s3, s4 := With(s, tid, ThreadAt(d, RetryGet(0))), With(s, tid, ThreadAt(d, RetryUpdate(0, v, seen)));
    OneMore(pm, s, Spawn(tid, d), s1);
    assert s2.threads == s1.threads[tid := s2.threads[tid]];
    OneMore(pm, s1, Get(tid, At(v)), s2);
    assert s3.threads == s2.threads[tid := s3.threads[tid]];
    OneMore(pm, s2, Get(tid, At(v)), s3);
    assert s4.threads == s3.threads[tid := s4.threads[tid]];
    OneMore(pm, s3, Get(tid, At(v)), s4);
  }

  /** ... and counts its death on top of it. */
  lemma CountOn(pm: Params, s: State, tid: nat, d: Death) returns (s': State)
    requires Reachable(pm, s) && DeathOk(pm, d) && tid !in s.threads
    requires StoreKey(pm, d) in s.store && s.store[StoreKey(pm, d)] != [] && !LastIs(s.store[StoreKey(pm, d)], d.episode)
    ensures Reachable(pm, s') && s'.threads.Keys == s.threads.Keys + {tid}
    ensures var k := StoreKey(pm, d);
      k in s'.store && Deaths(s'.store[k]) == Deaths(s.store[k]) + [d] && LastIs(s'.store[k], d.episode)
  {
    hide Deaths, StoreKey, FindingsOf, AfterGet;
    GoBump(pm, s, tid, d);
    var h := s.store[StoreKey(pm, d)];
    var seen := h[|h| - 1].obit;
    var s1 := With(s, tid, ThreadAt(d, RetryUpdate(0, |h| - 1, seen)));
    s' := Next(pm, s1, Put(tid, false));
    OneMore(pm, s1, Put(tid, false), s');
    LogDeath(h, tid, seen.(status := Bump(pm.lower, seen.status, d)), d);
  }

  /** The deaths a, b, a of one record, each by its own reconcile: three occurrences, two distinct episodes. */
  lemma EpisodeReturns(pm: Params, d: Death, episode: string) returns (s: State)
    requires DeathOk(pm, d) && episode != "" && episode != d.episode
    ensures Reachable(pm, s) && StoreKey(pm, d) in s.store && |s.store[StoreKey(pm, d)]| > 0
    ensures var h := s.store[StoreKey(pm, d)];
      && Deaths(h) == [d, d.(episode := episode), d]
      && h[|h| - 1].obit.status.occurrences == 3 && |Distinct(Episodes(Deaths(h)))| == 2
  {
    var d2 := d.(episode := episode);
    assert KeyOf(pm.lower, d2) == KeyOf(pm.lower, d);
    InitReachable(pm);
    Birth(pm, Init(0), 0, d);
    OnlyDeath(pm, 0, d);
    s := Born(pm, Init(0), 0, d, HealLookup);
    assert LastIs(FirstVersions(pm, 0, d), d.episode);
    hide FindingsOf, KeyOf, Naming.ObituaryName, Next, Deaths, FirstVersions, Run;
    assert StoreKey(pm, d2) == StoreKey(pm, d);
    s := CountOn(pm, s, 1, d2);
    s := CountOn(pm, s, 2, d);
    ReturnsInHistory(pm, s, d, episode);
  }

  lemma ReturnsInHistory(pm: Params, s: State, d: Death, episode: string)
    requires Reachable(pm, s) && StoreKey(pm, d) in s.store && episode != d.episode
    requires Deaths(s.store[StoreKey(pm, d)]) == [d, d.(episode := episode), d]
    ensures var h := s.store[StoreKey(pm, d)];
      |h| > 0 && h[|h| - 1].obit.status.occurrences == 3 && |Distinct(Episodes(Deaths(h)))| == 2
  {
    hide StoreKey, Deaths, Next, Keyed, Linear;
    var k := StoreKey(pm, d);
    var steps :| Run(pm, 0, steps) == s;
    hide Run;
    RunKeepsInv(pm, 0, steps);
    assert HistoryOk(pm, k, s.store[k]);
    ThreeOfTwo(Op(pm), s.store[k], d, episode);
  }

  lemma {:induction false} ThreeOfTwo(p: Operator, h: seq<Version>, d: Death, episode: string)
    requires Linear(p, h) && episode != d.episode && Deaths(h) == [d, d.(episode := episode), d]
    ensures |h| > 0 && h[|h| - 1].obit.status.occurrences == 3 && |Distinct(Episodes(Deaths(h)))| == 2
  {
    assert |h| > 0;
    hide Linear, Deaths, Blocks;
    OccurrencesCount(p, h, "", []);
    var e := Episodes(Deaths(h));
    assert e == [d.episode, episode, d.episode];
    assert Distinct(e) == {d.episode, episode};
  }

  // ---------- records that are lost, and records that name an action they skipped ----------

  /** An executor ran, its reconcile is over, and no obituary holds a record of it: the read before the append failed. */
  lemma ExecutedUnrecorded(pm: Params, d: Death, result: ExecResult) returns (s: State)
    requires pm.window > 0 && OomDeployment(pm, d)
    ensures Reachable(pm, s) && |s.events| == 1 && s.events[0].kind.ExecutorStart?
    ensures 0 in s.threads && s.threads[0].pc.Finished? && s.threads[0].grant == Some(0)
    ensures s.threads[0].tried.Some? && s.threads[0].logged.None?
  {
    hide FindingsOf, KeyOf, Naming.ObituaryName, StoreKey, RateLimit.Call;
    var s0 := FirstStart(pm, d, 0);
    var t := s0.threads[0];
    var rec := ExecRecord(s0.ledger.clock, t.pc.heal.decision, result);
    var s1 := With(s0, 0, Trailing(t, rec));
    OneMore(pm, s0, Return(0, result), s1);
    s := With(s1, 0, Ended(s1.threads[0]));
    OneMore(pm, s1, Get(0, Unavailable), s);
  }

  /** While a grant of this very instant is remembered, a reservation under a cap of one is refused. */
  lemma CallRefuses(l: RateLimit.Ledger, ns: string, window: int)
    requires window > 0 && ns in l.memory && l.memory[ns] == [l.clock]
    ensures RateLimit.Call(l, ns, window, 1) == (l, false)
  {
    var h := l.memory[ns];
    assert h[..0] == [];
    assert RateLimit.Kept(h[..0], l.clock - window) == [];
    assert RateLimit.Kept(h, l.clock - window) == [l.clock];
    assert l.memory[ns := [l.clock]] == l.memory;
  }

  /** A record committed as skipped that names an action: the budget was refused after the decision. */
  lemma SkippedWithAction(pm: Params, d1: Death, d2: Death) returns (s: State)
    requires pm.window > 0 && OomDeployment(pm, d1) && OomDeployment(pm, d2)
    requires d1.subject.ns == d2.subject.ns && StoreKey(pm, d1) != StoreKey(pm, d2)
    ensures Reachable(pm, s)
    ensures var k := StoreKey(pm, d2);
      && k in s.store && |s.store[k]| == 3 && s.store[k][2].write.HealWrite?
      && s.store[k][2].write.rec.outcome == Skipped && s.store[k][2].write.rec.action == BumpMemory
  {
    hide FindingsOf, KeyOf, Naming.ObituaryName, StoreKey, Next, RateLimit.Call;
    var s0 := FirstStart(pm, d1, 0);
    GoReserve(pm, s0, 1, d2);
    var s1 := Born(pm, s0, 1, d2, Reserving(FirstHeal(pm, 1, d2)));
    CallRefuses(s0.ledger, d1.subject.ns, pm.window);
    var rec := LimitedRecord(s0.ledger.clock, MEMORY_BUMP);
    RefusedStep(pm, s1, 1, FirstHeal(pm, 1, d2));
    var s2 := With(s1, 1, Trailing(s1.threads[1], rec));
    s := RecordStep(pm, s2, 1, d2, rec);
  }

  lemma RefusedStep(pm: Params, s: State, tid: nat, h: Heal)
    requires Reachable(pm, s) && tid in s.threads && s.threads[tid].pc == Reserving(h) && h.policy == EAGER
    requires RateLimit.Call(s.ledger, HealNs(h), pm.window, 1) == (s.ledger, false)
    ensures Reachable(pm, With(s, tid, Trailing(s.threads[tid], LimitedRecord(s.ledger.clock, h.decision))))
  {
    hide RateLimit.Call;
    OneMore(pm, s, Reserve(tid), With(s, tid, Trailing(s.threads[tid], LimitedRecord(s.ledger.clock, h.decision))));
  }

  /** An undisturbed append of a record to a record's first versions. */
  lemma RecordStep(pm: Params, s: State, tid: nat, d: Death, rec: HealRecord) returns (s': State)
    requires Reachable(pm, s) && tid in s.threads && s.threads[tid].pc == TrailGet(rec, 0) && s.threads[tid].d == d
    requires StoreKey(pm, d) in s.store && |s.store[StoreKey(pm, d)]| == 2
    ensures Reachable(pm, s') && StoreKey(pm, d) in s'.store
    ensures |s'.store[StoreKey(pm, d)]| == 3 && s'.store[StoreKey(pm, d)][2].write == HealWrite(tid, rec)
  {
    hide StoreKey;
    var k := StoreKey(pm, d);
    var s1 := With(s, tid, s.threads[tid].(pc := TrailUpdate(rec, 0, 1, s.store[k][1].obit)));
    OneMore(pm, s, Get(tid, At(1)), s1);
    s' := Next(pm, s1, Put(tid, false));
    OneMore(pm, s1, Put(tid, false), s');
  }
}
