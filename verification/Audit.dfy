/**
 What the concurrent reconciles report is true: an upsert that neither failed nor lost the race to create leaves its
 episode counted, a heal record says what happened, and an executor run changes the cluster at most once.
 */
module Audit {
  import opened Common
  import opened Decider
  import opened Obituaries
  import opened Engine
  import opened Reconciles
  import opened Conservation
  import RateLimit

  // ---------- results of the upsert ----------

  /** Some committed death of the record carries the episode. */
  ghost predicate EpisodeCounted(pm: Params, store: map<Key, seq<Version>>, d: Death) {
    var k := StoreKey(pm, d);
    k in store && d.episode in Episodes(Deaths(store[k]))
  }

  ghost predicate Accounted(pm: Params, store: map<Key, seq<Version>>, t: Thread) {
    t.upsert.Returned? && !t.upsert.failed && !t.upsert.raced ==> EpisodeCounted(pm, store, t.d)
  }

  ghost predicate AllAccounted(pm: Params, s: State) {
    forall tid :: tid in s.threads ==> Accounted(pm, s.store, s.threads[tid])
  }

  lemma {:induction false} DeathsGrow(h: seq<Version>, h': seq<Version>)
    requires h <= h'
    ensures Deaths(h) <= Deaths(h')
  {
    if |h| < |h'| {
      DeathsGrow(h, h'[..|h'| - 1]);
    } else {
      assert h == h';
    }
  }

  lemma CountedGrows(pm: Params, a: map<Key, seq<Version>>, b: map<Key, seq<Version>>, d: Death)
    requires Grows(a, b) && EpisodeCounted(pm, a, d)
    ensures EpisodeCounted(pm, b, d)
  {
    var k := StoreKey(pm, d);
    DeathsGrow(a[k], b[k]);
    var x, y := Episodes(Deaths(a[k])), Episodes(Deaths(b[k]));
    var i :| 0 <= i < |x| && x[i] == d.episode;
    assert y[i] == d.episode;
  }

  lemma LastEpisodeIsLastDeath(p: Operator, h: seq<Version>)
    requires Linear(p, h) && h[|h| - 1].obit.status.lastEpisode != ""
    ensures Deaths(h) != [] && Deaths(h)[|Deaths(h)| - 1].episode == h[|h| - 1].obit.status.lastEpisode
  {
    StatusIsClosedForm(p, h);
    hide Linear, FindingsOf, Trim, RecordsSinceDeath, Deaths;
  }

  lemma EpisodeOf(ds: seq<Death>, i: nat)
    requires i < |ds|
    ensures ds[i].episode in Episodes(ds)
  {
    assert Episodes(ds)[i] == ds[i].episode;
  }

  /** An episode read off any committed version belongs to a committed death. */
  lemma ReadIsCounted(p: Operator, h: seq<Version>, v: nat)
    requires Linear(p, h) && v < |h| && h[v].obit.status.lastEpisode != ""
    ensures h[v].obit.status.lastEpisode in Episodes(Deaths(h))
  {
    hide Linear, Deaths, Episodes;
    var front := h[..v + 1];
    LinearPrefix(p, h, v + 1);
    LastEpisodeIsLastDeath(p, front);
    DeathsGrow(front, h);
    EpisodeOf(Deaths(h), |Deaths(front)| - 1);
  }

  lemma GetAccounts(pm: Params, store: map<Key, seq<Version>>, t: Thread, view: View)
    requires StoreOk(pm, store) && DeathOk(pm, t.d) && Visible(store, StoreKey(pm, t.d), view) && Accounted(pm, store, t)
    ensures Accounted(pm, store, AfterGet(pm, store, t, view))
  {
    hide StoreKey, Linear, Keyed, Episodes;
    var k := StoreKey(pm, t.d);
    if view.At? && store[k][view.version].obit.status.lastEpisode == t.d.episode {
      assert HistoryOk(pm, k, store[k]);
      ReadIsCounted(Op(pm), store[k], view.version);
    }
  }

  lemma SnocCounts(h: seq<Version>, v: Version)
    requires v.write.DeathWrite?
    ensures v.write.d.episode in Episodes(Deaths(h + [v]))
  {
    LogDeath(h, v.write.author, v.obit, v.write.d);
    EpisodesSnoc(Deaths(h), v.write.d);
  }

  lemma PutAccounts(pm: Params, store: map<Key, seq<Version>>, tid: nat, t: Thread, fault: bool)
    requires PhaseOk(t) && Accounted(pm, store, t) && Grows(store, StoreAfterPut(pm, store, tid, t, fault))
    ensures Accounted(pm, StoreAfterPut(pm, store, tid, t, fault), ThreadAfterPut(pm, store, t, fault))
  {
    var k, store', t' := StoreKey(pm, t.d), StoreAfterPut(pm, store, tid, t, fault), ThreadAfterPut(pm, store, t, fault);
    var e := PutEffectOf(pm, store, tid, t, fault);
    hide StoreKey, Deaths, Episodes, StoreAfterPut;
    if e.Wrote? && e.v.write.DeathWrite? {
      SnocCounts(store[k], e.v);
    } else if t.upsert == t'.upsert {
      if EpisodeCounted(pm, store, t.d) { CountedGrows(pm, store, store', t.d); }
    }
  }

  lemma StepAccounts(pm: Params, s: State, st: Step)
    requires Inv(pm, s) && PhasesOk(s) && AllAccounted(pm, s)
    ensures AllAccounted(pm, Next(pm, s, st))
  {
    hide EpisodeCounted, AfterGet, AfterJudge, StoreAfterPut, ThreadAfterPut, RateLimit.Call;
    var s' := Next(pm, s, st);
    StepKeepsStore(pm, s, st);
    forall tid | tid in s'.threads ensures Accounted(pm, s'.store, s'.threads[tid]) {
      if Mover(st) == Some(tid) && Enabled(pm, s, st) {
        MoverAccounts(pm, s, st);
      } else {
        if Enabled(pm, s, st) { OthersUntouched(pm, s, st, tid); }
        assert Accounted(pm, s.store, s.threads[tid]);
        if EpisodeCounted(pm, s.store, s.threads[tid].d) { CountedGrows(pm, s.store, s'.store, s.threads[tid].d); }
      }
    }
  }

  /** A step other than a read or a write attempt leaves the results alone. */
  lemma ResultsKept(pm: Params, s: State, st: Step)
    requires Enabled(pm, s, st) && Mover(st).Some? && !st.Get? && !st.Put?
    ensures var s', tid := Next(pm, s, st), Mover(st).value;
      && s'.store == s.store && tid in s'.threads
      && if tid in s.threads then s'.threads[tid].d == s.threads[tid].d && s'.threads[tid].upsert == s.threads[tid].upsert
         else s'.threads[tid].upsert.Pending?
  {
    hide AfterJudge, StoreKey, RateLimit.Call, KindAfterGrant;
    if st.Judge? { JudgeFields(pm, s, s.threads[st.tid], st.view, st.policy, st.nsAllowed, st.llm); }
  }

  lemma MoverAccounts(pm: Params, s: State, st: Step)
    requires Inv(pm, s) && PhasesOk(s) && AllAccounted(pm, s) && Enabled(pm, s, st) && Mover(st).Some?
    requires Grows(s.store, Next(pm, s, st).store)
    ensures var s', tid := Next(pm, s, st), Mover(st).value;
      tid in s'.threads && Accounted(pm, s'.store, s'.threads[tid])
  {
    hide EpisodeCounted, AfterGet, AfterJudge, AfterReserve, AfterAct, StoreAfterPut, ThreadAfterPut, HistoryOk;
    var tid := Mover(st).value;
    if tid in s.threads {
      assert ThreadOk(pm, s.store, s.threads[tid]) && PhaseOk(s.threads[tid]) && Accounted(pm, s.store, s.threads[tid]);
    }
    match st
    case Get(_, view) => GetAccounts(pm, s.store, s.threads[tid], view);
    case Put(_, fault) => PutAccounts(pm, s.store, tid, s.threads[tid], fault);
    case _ => ResultsKept(pm, s, st);
  }

  // ---------- records ----------

  /** The record is that of the event: same action, same decider, the outcome and reason of what was done. */
  predicate Tells(rec: HealRecord, ev: HealEvent) {
    && rec.action == ev.heal.decision.action && rec.decidedBy == ev.heal.decision.decidedBy && ev.at <= rec.time
    && match rec.outcome
       case DryRun =>
         && ev.kind.DryRunOutcome? && rec.reason == Decided(ev.heal.decision.why)
         && rec.detail == "dry-run: would execute " + ActionName(ev.heal.decision.action)
       case Applied => ev.kind.ExecutorStart? && rec.reason == Decided(ev.heal.decision.why)
       case Failed => (ev.kind.ExecutorStart? && rec.reason.ExecutorError?) || (ev.kind.MissingExecutor? && rec.reason.NoExecutor?)
       case Skipped => false
  }

  /** The event a grant led to. */
  function EventOf(receipts: seq<Receipt>, events: seq<HealEvent>, grant: Option<nat>): Option<HealEvent> {
    if grant.Some? && grant.value < |receipts| && receipts[grant.value].event.Some? && receipts[grant.value].event.value < |events|
    then Some(events[receipts[grant.value].event.value]) else None
  }

  /** A skip names its action exactly when the budget was refused; anything else tells of the event its grant led to. */
  predicate Truthful(receipts: seq<Receipt>, events: seq<HealEvent>, t: Thread) {
    t.tried.Some? ==>
      var rec, ev := t.tried.value, EventOf(receipts, events, t.grant);
      if rec.outcome.Skipped? then (rec.action == NoAction <==> rec.reason != RateLimited) else ev.Some? && Tells(rec, ev.value)
  }

  ghost predicate AllTruthful(s: State) {
    forall tid :: tid in s.threads ==> Truthful(s.receipts, s.events, s.threads[tid])
  }

  /** What a grant has led to stays. */
  ghost predicate Persists(s: State, s': State) {
    forall g: nat :: EventOf(s.receipts, s.events, Some(g)).Some? ==>
      EventOf(s'.receipts, s'.events, Some(g)) == EventOf(s.receipts, s.events, Some(g))
  }

  lemma EventsPersist(pm: Params, s: State, st: Step)
    requires BudgetOk(s)
    ensures Persists(s, Next(pm, s, st))
  {
    hide AfterGet, AfterJudge, StoreAfterPut, ThreadAfterPut, RateLimit.Call, KindAfterGrant;
    if Enabled(pm, s, st) && st.Settle? {
      assert HolderOk(s, st.tid);
      assert ReceiptOk(s, s.threads[st.tid].pc.grant);
    }
  }

  lemma JudgedTruth(pm: Params, s: State, t: Thread, view: View, policy: HealPolicy, nsAllowed: bool, llm: Option<Reply>)
    requires t.tried.None? && Visible(s.store, StoreKey(pm, t.d), view)
    ensures Truthful(s.receipts, s.events, AfterJudge(pm, s, t, view, policy, nsAllowed, llm))
  {
    hide GatesPass, Applicable, ProductionDecide, SubjectKind, Allowlist, StoreKey;
  }

  lemma ReservedTruth(pm: Params, s: State, tid: nat)
    requires Inv(pm, s) && PhasesOk(s) && Enabled(pm, s, Reserve(tid))
    ensures var s' := AfterReserve(pm, s, tid); Truthful(s'.receipts, s'.events, s'.threads[tid])
  {
    hide RateLimit.Call, GatesPass, Cap, StoreKey;
    assert ThreadOk(pm, s.store, s.threads[tid]) && PhaseOk(s.threads[tid]);
  }

  lemma SettledTruth(pm: Params, s: State, tid: nat)
    requires PhasesOk(s) && BudgetOk(s) && Enabled(pm, s, Settle(tid))
    ensures var s' := AfterAct(s, tid); Truthful(s'.receipts, s'.events, s'.threads[tid])
  {
    hide KindAfterGrant;
    assert PhaseOk(s.threads[tid]) && HolderOk(s, tid);
    var s', t := AfterAct(s, tid), s.threads[tid];
    assert EventOf(s'.receipts, s'.events, t.grant) == Some(s'.events[|s.events|]);
  }

  lemma ReturnedTruth(pm: Params, s: State, tid: nat, result: ExecResult)
    requires PhasesOk(s) && BudgetOk(s) && Enabled(pm, s, Return(tid, result))
    ensures var s' := Next(pm, s, Return(tid, result)); Truthful(s'.receipts, s'.events, s'.threads[tid])
  {
    var t := s.threads[tid];
    assert PhaseOk(t) && HolderOk(s, tid);
    assert EventOk(s, s.receipts[t.pc.grant].event.value);
  }

  lemma MoverTruth(pm: Params, s: State, st: Step)
    requires Inv(pm, s) && PhasesOk(s) && BudgetOk(s) && AllTruthful(s) && Enabled(pm, s, st) && Mover(st).Some?
    ensures var s', tid := Next(pm, s, st), Mover(st).value;
      tid in s'.threads && Truthful(s'.receipts, s'.events, s'.threads[tid])
  {
    hide AfterGet, AfterJudge, StoreAfterPut, ThreadAfterPut, RateLimit.Call, Tells, EventOf;
    var tid := Mover(st).value;
    if tid in s.threads { assert PhaseOk(s.threads[tid]) && Truthful(s.receipts, s.events, s.threads[tid]); }
    match st
    case Spawn(_, _) =>
    case Get(_, view) => GetFields(pm, s.store, s.threads[tid], view);
    case Put(_, fault) => PutFields(pm, s.store, s.threads[tid], fault);
    case Judge(_, view, policy, nsAllowed, llm) => JudgedTruth(pm, s, s.threads[tid], view, policy, nsAllowed, llm);
    case Reserve(_) => ReservedTruth(pm, s, tid);
    case Settle(_) => SettledTruth(pm, s, tid);
    case Mutate(_) =>
    case Return(_, result) => ReturnedTruth(pm, s, tid, result);
  }

  lemma StepKeepsTruth(pm: Params, s: State, st: Step)
    requires Inv(pm, s) && PhasesOk(s) && BudgetOk(s) && AllTruthful(s)
    ensures AllTruthful(Next(pm, s, st))
  {
    hide Tells, EventOf, PhaseOk;
    var s' := Next(pm, s, st);
    EventsPersist(pm, s, st);
    forall tid | tid in s'.threads ensures Truthful(s'.receipts, s'.events, s'.threads[tid]) {
      if Mover(st) == Some(tid) && Enabled(pm, s, st) {
        MoverTruth(pm, s, st);
      } else {
        if Enabled(pm, s, st) { OthersUntouched(pm, s, st, tid); }
        StillTruthful(s, s', s.threads[tid]);
      }
    }
  }

  lemma StillTruthful(s: State, s': State, t: Thread)
    requires Persists(s, s') && Truthful(s.receipts, s.events, t)
    ensures Truthful(s'.receipts, s'.events, t)
  {
    hide Tells;
    if t.grant.Some? && EventOf(s.receipts, s.events, t.grant).Some? {
      assert EventOf(s.receipts, s.events, Some(t.grant.value)).Some?;
    }
  }

  // ---------- changes to the cluster ----------

  /** Every change stems from its own event, and an executor that has not changed anything yet has not. */
  ghost predicate ChangesOnce(s: State) {
    && (forall i, j :: 0 <= i < j < |s.cluster| ==> s.cluster[i] != s.cluster[j])
    && (forall tid :: tid in s.threads ==> Unchanged(s, s.threads[tid]))
  }

  ghost predicate Unchanged(s: State, t: Thread) {
    t.pc.Executing? && !t.pc.changed && t.pc.grant < |s.receipts| && s.receipts[t.pc.grant].event.Some? ==>
      s.receipts[t.pc.grant].event.value !in s.cluster
  }

  lemma MutateChangesOnce(pm: Params, s: State, tid: nat)
    requires BudgetOk(s) && ChangesOnce(s) && Enabled(pm, s, Mutate(tid))
    ensures ChangesOnce(Next(pm, s, Mutate(tid)))
  {
    var s' := Next(pm, s, Mutate(tid));
    assert HolderOk(s, tid) && Unchanged(s, s.threads[tid]);
    forall other | other in s'.threads ensures Unchanged(s', s'.threads[other]) {
      if other != tid {
        assert Unchanged(s, s.threads[other]) && HolderOk(s, other);
        if s.threads[other].pc.Executing? {
          assert ReceiptOk(s, s.threads[other].pc.grant) && ReceiptOk(s, s.threads[tid].pc.grant);
        }
      }
    }
  }

  lemma SettleChangesOnce(pm: Params, s: State, tid: nat)
    requires BudgetOk(s) && ChangesOnce(s) && Enabled(pm, s, Settle(tid))
    ensures ChangesOnce(AfterAct(s, tid))
  {
    hide KindAfterGrant;
    var s' := AfterAct(s, tid);
    assert HolderOk(s, tid);
    forall other | other in s'.threads ensures Unchanged(s', s'.threads[other]) {
      if other != tid { assert Unchanged(s, s.threads[other]) && HolderOk(s, other); }
    }
  }

  /** Every other step keeps the cluster and the executing threads, and at most adds a receipt. */
  lemma StepChangesOnce(pm: Params, s: State, st: Step)
    requires PhasesOk(s) && BudgetOk(s) && ChangesOnce(s)
    ensures ChangesOnce(Next(pm, s, st))
  {
    if Enabled(pm, s, st) {
      if st.Mutate? {
        MutateChangesOnce(pm, s, st.tid);
      } else if st.Settle? {
        SettleChangesOnce(pm, s, st.tid);
      } else {
        hide AfterGet, AfterJudge, StoreAfterPut, ThreadAfterPut, RateLimit.Call;
        var s' := Next(pm, s, st);
        forall tid | tid in s'.threads ensures Unchanged(s', s'.threads[tid]) {
          if Mover(st) == Some(tid) {
            if !st.Spawn? && !st.Reserve? { ThreadStepsKeepGrant(pm, s, st); }
          } else {
            OthersUntouched(pm, s, st, tid);
          }
          if tid in s.threads { assert Unchanged(s, s.threads[tid]) && HolderOk(s, tid); }
        }
      }
    }
  }

  // ---------- every run ----------

  ghost predicate Sound(pm: Params, s: State) { AllAccounted(pm, s) && AllTruthful(s) && ChangesOnce(s) }

  lemma {:induction false} RunIsSound(pm: Params, clock: int, steps: seq<Step>)
    requires pm.window > 0
    ensures Sound(pm, Run(pm, clock, steps))
  {
    if |steps| > 0 {
      var s, st := Run(pm, clock, steps[..|steps| - 1]), steps[|steps| - 1];
      RunKeepsWhole(pm, clock, steps[..|steps| - 1]);
      RunIsSound(pm, clock, steps[..|steps| - 1]);
      StepAccounts(pm, s, st);
      StepKeepsTruth(pm, s, st);
      StepChangesOnce(pm, s, st);
    }
  }
}
