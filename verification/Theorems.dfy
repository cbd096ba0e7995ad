/** The claims about every run of the concurrent reconciles, read off the invariants. */
module Theorems {
  import opened Common
  import opened Diagnosis
  import opened Decider
  import opened Obituaries
  import opened Engine
  import opened Reconciles
  import opened Conservation
  import opened Audit
  import Naming
  import RateLimit

  /** The first n committed versions of an object in a run; None if there are not that many. */
  function Committed(pm: Params, clock: int, steps: seq<Step>, k: Key, n: nat): Option<seq<Version>> {
    var s := Run(pm, clock, steps);
    if k in s.store && 0 < n <= |s.store[k]| then Some(s.store[k][..n]) else None
  }

  lemma CommittedIsLinear(pm: Params, clock: int, steps: seq<Step>, k: Key, n: nat)
    requires Committed(pm, clock, steps, k, n).Some?
    ensures Linear(Op(pm), Committed(pm, clock, steps, k, n).value)
    ensures HistoryOk(pm, k, Run(pm, clock, steps).store[k])
  {
    RunKeepsInv(pm, clock, steps);
    LinearPrefix(Op(pm), Run(pm, clock, steps).store[k], n);
  }

  // ---------- counting ----------

  /**
   In every interleaving, after every commit, with any staleness, conflicts, exhausted retries and half-created
   objects: Occurrences is the number of committed death writes and of equal-episode blocks, adjacent
   committed deaths differ, and it is the number of distinct episodes exactly when none returns after another was
   counted, as when one pod's own deaths are counted.
   */
  lemma OccurrencesInEveryInterleaving(pm: Params, clock: int, steps: seq<Step>, k: Key, n: nat, uid: string, counts: seq<int>)
    requires Committed(pm, clock, steps, k, n).Some?
    ensures var h := Committed(pm, clock, steps, k, n).value;
      var e, occurrences := Episodes(Deaths(h)), h[n - 1].obit.status.occurrences;
      && occurrences == |Deaths(h)| == Blocks(e)
      && NoAdjacentRepeat(e)
      && |Distinct(e)| <= occurrences
      && (occurrences == |Distinct(e)| <==> NeverReturns(e))
      && (OnePod(e, uid, counts) ==> occurrences == |Distinct(e)|)
  {
    CommittedIsLinear(pm, clock, steps, k, n);
    OccurrencesCount(Op(pm), Committed(pm, clock, steps, k, n).value, uid, counts);
    AdjacentEpisodesDiffer(Op(pm), Committed(pm, clock, steps, k, n).value);
  }

  /** A heal record or metadata write never alters the count, the findings or the identity. */
  lemma OnlyDeathsCount(pm: Params, clock: int, steps: seq<Step>, k: Key, n: nat)
    requires Committed(pm, clock, steps, k, n).Some? && n > 1
    ensures var h := Committed(pm, clock, steps, k, n).value;
      var was, now := h[n - 2].obit, h[n - 1].obit;
      && now.spec == was.spec
      && now.status.occurrences == was.status.occurrences + (if h[n - 1].write.DeathWrite? then 1 else 0)
      && (!h[n - 1].write.DeathWrite? ==>
          && now.status.findings == was.status.findings
          && now.status.lastEpisode == was.status.lastEpisode && now.status.firstSeen == was.status.firstSeen)
  {
    CommittedIsLinear(pm, clock, steps, k, n);
    var h := Committed(pm, clock, steps, k, n).value;
    assert Follows(Op(pm), h[n - 2].obit, h[n - 1]);
  }

  /** A reconcile commits its death at most once, and never when its upsert failed. */
  lemma DeathWrittenAtMostOnce(pm: Params, clock: int, steps: seq<Step>, tid: nat, k: Key, i: nat)
    requires pm.window > 0
    requires var s := Run(pm, clock, steps); k in s.store && i < |s.store[k]|
    requires var w := Run(pm, clock, steps).store[k][i].write; w.DeathWrite? && w.author == tid
    ensures var s := Run(pm, clock, steps);
      && tid in s.threads && s.threads[tid].wrote == Some(i) && StoreKey(pm, s.threads[tid].d) == k
      && s.store[k][i].write.d == s.threads[tid].d
      && s.threads[tid].upsert.Returned? && !s.threads[tid].upsert.failed
  {
    RunKeepsWhole(pm, clock, steps);
    var s := Run(pm, clock, steps);
    assert WriteOwned(pm, s.threads, k, i, s.store[k][i].write);
    assert PhaseOk(s.threads[tid]);
    assert HistoryOk(pm, k, s.store[k]);
  }

  /** Conversely a committed death or record is never lost: it is still where its thread put it, as it was tried. */
  lemma CommittedWritesStay(pm: Params, clock: int, steps: seq<Step>, tid: nat)
    requires pm.window > 0 && tid in Run(pm, clock, steps).threads
    ensures var s := Run(pm, clock, steps);
      var t := s.threads[tid];
      var k := StoreKey(pm, t.d);
      && (t.wrote.Some? ==> k in s.store && t.wrote.value < |s.store[k]| && s.store[k][t.wrote.value].write == DeathWrite(tid, t.d))
      && (t.logged.Some? ==>
          && k in s.store && t.logged.value < |s.store[k]|
          && t.tried.Some? && s.store[k][t.logged.value].write == HealWrite(tid, t.tried.value))
      && (t.upsert.Returned? && t.upsert.created && !t.upsert.failed ==> t.wrote.Some?)
      && (t.upsert.Returned? && !t.upsert.created && !t.upsert.bumped ==> t.wrote.None?)
  {
    hide Run, Next;
    RunKeepsWhole(pm, clock, steps);
    var s := Run(pm, clock, steps);
    assert RemembersTruly(pm, s.store, tid, s.threads[tid]);
    assert PhaseOk(s.threads[tid]);
  }

  /**
   What upsertObituary's results mean: "created" or "bumped" without an error, or both false without an error and
   without having lost the race to create, leave the episode among the committed deaths of the record.
   */
  lemma ResultsMeanCounted(pm: Params, clock: int, steps: seq<Step>, tid: nat)
    requires pm.window > 0 && tid in Run(pm, clock, steps).threads
    ensures var s := Run(pm, clock, steps);
      var t := s.threads[tid];
      && (t.upsert.Returned? && !t.upsert.failed && !t.upsert.raced ==> EpisodeCounted(pm, s.store, t.d))
      && (t.upsert.Returned? && t.upsert.bumped ==> !t.upsert.failed && !t.upsert.raced && EpisodeCounted(pm, s.store, t.d))
      && (t.upsert.Returned? && t.upsert.raced ==> !t.upsert.created && !t.upsert.bumped && !t.upsert.failed)
  {
    hide Run, Next, EpisodeCounted;
    RunKeepsWhole(pm, clock, steps);
    RunIsSound(pm, clock, steps);
    var t := Run(pm, clock, steps).threads[tid];
    assert PhaseOk(t) && Accounted(pm, Run(pm, clock, steps).store, t);
  }

  // ---------- audit trail ----------

  /** After every commit the trail is the newest maxAttempts records since the last death, in commit order. */
  lemma TrailInEveryInterleaving(pm: Params, clock: int, steps: seq<Step>, k: Key, n: nat)
    requires Committed(pm, clock, steps, k, n).Some? && pm.maxAttempts > 0
    ensures var h := Committed(pm, clock, steps, k, n).value;
      var records, trail := RecordsSinceDeath(h), h[n - 1].obit.status.healAttempts;
      && |trail| == (if |records| < pm.maxAttempts then |records| else pm.maxAttempts)
      && trail == records[|records| - |trail|..]
      && h[n - 1].obit.status.lastHealAt == (if |records| == 0 then None else Some(records[|records| - 1].time))
  {
    hide HistoryOk, Linear, Run, RecordsSinceDeath;
    CommittedIsLinear(pm, clock, steps, k, n);
    var h := Committed(pm, clock, steps, k, n).value;
    assert |h| == n;
    hide Committed;
    TrailIsNewestRecords(Op(pm), h);
  }

  // ---------- coherence ----------

  lemma CauseNameInjective(a: Cause, b: Cause)
    requires CauseName(a) == CauseName(b)
    ensures a == b
  {
    var m, n := CauseName(a), CauseName(b);
    assert |m| == |n| && (|m| > 0 ==> m[0] == n[0]);
  }

  lemma SameIssueKey(pm: Params, a: Death, b: Death)
    requires Naming.HexDigests(pm.hash) && Naming.NoCollisions(pm.hash, pm.keys)
    requires DeathOk(pm, a) && DeathOk(pm, b) && StoreKey(pm, a) == StoreKey(pm, b)
    ensures KeyOf(pm.lower, a) == KeyOf(pm.lower, b)
  {
    Naming.NameFixesHash(pm.hash, pm.lower, a.subject.name, KeyOf(pm.lower, a), b.subject.name, KeyOf(pm.lower, b));
  }

  /**
   Without hash collisions a record with a status names, in its key, the very cause it shows; its findings are
   those of one death, as Diagnose judged it; and FirstSeen is that of the first committed death.
   */
  lemma RecordsCohere(pm: Params, clock: int, steps: seq<Step>, k: Key, n: nat)
    requires Naming.HexDigests(pm.hash) && Naming.NoCollisions(pm.hash, pm.keys)
    requires Committed(pm, clock, steps, k, n).Some? && Deaths(Committed(pm, clock, steps, k, n).value) != []
    ensures var h := Committed(pm, clock, steps, k, n).value;
      var o, ds := h[n - 1].obit, Deaths(h);
      var d := ds[|ds| - 1];
      && ShowsDeath(pm.lower, o.status.findings, d)
      && o.status.lastEpisode == d.episode && o.status.lastPod == d.lastPod && o.status.firstSeen == Some(ds[0].now)
      && DiagnosablePair(o.status.findings.cause, o.status.findings.confidence)
      && o.status.lastSeen == Some(d.now)
      && o.spec.deathEpisodeKey == d.subject.ns + "/" + d.subject.kind + "/" + d.subject.name + "/" + d.container + "/"
                                   + CauseName(o.status.findings.cause)
      && h[0].write.Created? && o.spec.subject == h[0].write.d.subject && o.spec.timeOfDeath == h[0].write.d.now
      && k.ns == d.subject.ns
  {
    hide Naming.ObituaryName, HistoryOk, Diagnose, Linear, StatusFrom, Run;
    CommittedIsLinear(pm, clock, steps, k, n);
    var h := Committed(pm, clock, steps, k, n).value;
    FindingsFromOneDeath(Op(pm), h);
    KeyNamesLastDeath(pm, k, Run(pm, clock, steps).store[k], n);
    CreationNames(pm, k, Run(pm, clock, steps).store[k], n);
    WrittenUnderKey(pm, k, Run(pm, clock, steps).store[k], n, Deaths(h)[|Deaths(h)| - 1]);
  }

  /** The record keeps the subject and the time of the death it was created for. */
  lemma CreationNames(pm: Params, k: Key, full: seq<Version>, n: nat)
    requires HistoryOk(pm, k, full) && 0 < n <= |full|
    ensures full[0].write.Created? && DeathOk(pm, full[0].write.d) && StoreKey(pm, full[0].write.d) == k
    ensures full[n - 1].obit.spec.subject == full[0].write.d.subject
    ensures full[n - 1].obit.spec.timeOfDeath == full[0].write.d.now
  {
    LinearPrefix(Op(pm), full, n);
    StatusIsClosedForm(Op(pm), full[..n]);
    hide StatusFrom, FindingsOf, KeyOf, Follows, StoreKey;
    assert full[..n][0] == full[0] && full[..n][n - 1] == full[n - 1];
  }

  /** Every death committed to a record was filed under the record's key. */
  lemma WrittenUnderKey(pm: Params, k: Key, full: seq<Version>, n: nat, d: Death)
    requires HistoryOk(pm, k, full) && 0 < n <= |full| && d in Deaths(full[..n])
    ensures DeathOk(pm, d) && StoreKey(pm, d) == k && k.ns == d.subject.ns
  {
    DeathsAreWritten(full[..n], d);
    var i :| 0 <= i < n && full[..n][i].write.DeathWrite? && full[..n][i].write.d == d;
    hide Linear, KeyOf, Naming.ObituaryName;
    assert full[i].write.d == d;
  }

  /** With slash-free names the record names the workload and container of every death counted in it. */
  lemma RecordNamesItsDeaths(pm: Params, clock: int, steps: seq<Step>, k: Key, n: nat, d: Death)
    requires Naming.HexDigests(pm.hash) && Naming.NoCollisions(pm.hash, pm.keys)
    requires Committed(pm, clock, steps, k, n).Some? && d in Deaths(Committed(pm, clock, steps, k, n).value)
    requires var h := Committed(pm, clock, steps, k, n).value;
      SlashFreeNames(d) && (h[0].write.Created? ==> SlashFreeNames(h[0].write.d))
    ensures var o := Committed(pm, clock, steps, k, n).value[n - 1].obit;
      o.spec.subject.ns == d.subject.ns && o.spec.subject.kind == d.subject.kind && o.spec.subject.name == d.subject.name
  {
    hide Run, HistoryOk, StoreKey, SlashFreeNames, Diagnose;
    CommittedIsLinear(pm, clock, steps, k, n);
    var full := Run(pm, clock, steps).store[k];
    CreationNames(pm, k, full, n);
    WrittenUnderKey(pm, k, full, n, d);
    assert full[..n][0] == full[0];
    SubjectCoheres(pm, full[0].write.d, d);
  }

  /** The record's key is the issue key of every death committed to it. */
  lemma KeyNamesLastDeath(pm: Params, k: Key, full: seq<Version>, n: nat)
    requires Naming.HexDigests(pm.hash) && Naming.NoCollisions(pm.hash, pm.keys)
    requires HistoryOk(pm, k, full) && 0 < n <= |full| && Deaths(full[..n]) != []
    ensures var ds := Deaths(full[..n]);
      full[n - 1].obit.spec.deathEpisodeKey == KeyOf(pm.lower, ds[|ds| - 1])
  {
    hide StatusFrom, FindingsOf, KeyOf, Follows, Naming.ObituaryName;
    var h := full[..n];
    var d := Deaths(h)[|Deaths(h)| - 1];
    LinearPrefix(Op(pm), full, n);
    StatusIsClosedForm(Op(pm), h);
    DeathsAreWritten(h, d);
    var i :| 0 <= i < |h| && h[i].write.DeathWrite? && h[i].write.d == d;
    assert full[i] == h[i] && full[0] == h[0];
    SameIssueKey(pm, d, h[0].write.d);
  }

  predicate SlashFreeNames(d: Death) {
    && Naming.SlashFree(d.subject.ns) && Naming.SlashFree(d.subject.kind)
    && Naming.SlashFree(d.subject.name) && Naming.SlashFree(d.container)
  }

  /** With slash-free names the record's subject is that of every death counted in it. */
  lemma SubjectCoheres(pm: Params, a: Death, b: Death)
    requires Naming.HexDigests(pm.hash) && Naming.NoCollisions(pm.hash, pm.keys)
    requires DeathOk(pm, a) && DeathOk(pm, b) && StoreKey(pm, a) == StoreKey(pm, b)
    requires SlashFreeNames(a) && SlashFreeNames(b)
    ensures a.subject.ns == b.subject.ns && a.subject.kind == b.subject.kind && a.subject.name == b.subject.name
    ensures a.container == b.container
    ensures Diagnose(pm.lower, a.evidence).cause == Diagnose(pm.lower, b.evidence).cause
  {
    SameIssueKey(pm, a, b);
    Naming.IssueKeyInjective(a.subject.ns, a.subject.kind, a.subject.name, a.container, CauseName(Diagnose(pm.lower, a.evidence).cause),
                             b.subject.ns, b.subject.kind, b.subject.name, b.container, CauseName(Diagnose(pm.lower, b.evidence).cause));
    CauseNameInjective(Diagnose(pm.lower, a.evidence).cause, Diagnose(pm.lower, b.evidence).cause);
  }

  // ---------- acting ----------

  /** A heal was decided on the findings of a diagnosed death, after at least minOccurrences committed deaths. */
  lemma ActedOnDiagnosis(pm: Params, clock: int, steps: seq<Step>, e: nat)
    requires pm.window > 0 && e < |Run(pm, clock, steps).events|
    ensures var heal := Run(pm, clock, steps).events[e].heal;
      && heal.policy.enabled && heal.nsAllowed && heal.obit.status.findings.phase == Complete && heal.key in Run(pm, clock, steps).store
      && heal.version < |Run(pm, clock, steps).store[heal.key]|
      && |Deaths(Run(pm, clock, steps).store[heal.key][..heal.version + 1])| >= heal.policy.minOccurrences.GetOr(3)
      && (heal.policy.requireHighConfidence.GetOr(true) ==> heal.obit.status.findings.confidence == High)
      && DiagnosablePair(heal.obit.status.findings.cause, heal.obit.status.findings.confidence)
  {
    RunKeepsWhole(pm, clock, steps);
    var s := Run(pm, clock, steps);
    var heal := s.events[e].heal;
    assert HealOk(s.store, heal);
    assert HistoryOk(pm, heal.key, s.store[heal.key]);
    var h := s.store[heal.key][..heal.version + 1];
    LinearPrefix(Op(pm), s.store[heal.key], heal.version + 1);
    FindingsFromOneDeath(Op(pm), h);
    StatusIsClosedForm(Op(pm), h);
  }

  /**
   Under requireHighConfidence a RepeatedCrash is acted on only if the last death counted in the record was seen in
   CrashLoopBackOff; one inferred from a kill is left alone.
   */
  lemma HighConfidenceNeedsCrashLoop(pm: Params, clock: int, steps: seq<Step>, e: nat)
    requires pm.window > 0 && e < |Run(pm, clock, steps).events|
    requires var heal := Run(pm, clock, steps).events[e].heal;
      heal.policy.requireHighConfidence != Some(false) && heal.obit.status.findings.cause == RepeatedCrash
    ensures var s, heal := Run(pm, clock, steps), Run(pm, clock, steps).events[e].heal;
      && heal.key in s.store && heal.version < |s.store[heal.key]|
      && var ds := Deaths(s.store[heal.key][..heal.version + 1]);
      && ds != [] && ds[|ds| - 1].evidence.waitingReason == "CrashLoopBackOff"
  {
    hide Run, Diagnose, Linear, Keyed, Deaths, FindingsOf, Executable, KindOf;
    ActedOnDiagnosis(pm, clock, steps, e);
    RunKeepsWhole(pm, clock, steps);
    var s := Run(pm, clock, steps);
    var heal := s.events[e].heal;
    assert HealOk(s.store, heal) && HistoryOk(pm, heal.key, s.store[heal.key]);
    var h := s.store[heal.key][..heal.version + 1];
    LinearPrefix(Op(pm), s.store[heal.key], heal.version + 1);
    FindingsFromOneDeath(Op(pm), h);
    VerdictIs(pm.lower, Deaths(h)[|Deaths(h)| - 1].evidence);
  }

  /** Under requireHighConfidence no ApplicationError (nor Unknown) obituary is ever acted on. */
  lemma HighConfidenceSparesApplicationErrors(pm: Params, clock: int, steps: seq<Step>, e: nat)
    requires pm.window > 0 && e < |Run(pm, clock, steps).events|
    requires Run(pm, clock, steps).events[e].heal.policy.requireHighConfidence != Some(false)
    ensures var cause := Run(pm, clock, steps).events[e].heal.obit.status.findings.cause;
      cause != ApplicationErr && cause != Unknown
  {
    ActedOnDiagnosis(pm, clock, steps, e);
  }

  /** Whatever is acted on is allowlisted and accepted by its executor; the missing-executor outcome never occurs. */
  lemma EveryActionIsExecutable(pm: Params, clock: int, steps: seq<Step>, e: nat)
    requires pm.window > 0 && e < |Run(pm, clock, steps).events|
    ensures var ev := Run(pm, clock, steps).events[e];
      && Executable(ev.heal.decision.action, KindOf(ev.heal.obit.spec.subject.kind), Allowed(ev.heal.policy))
      && ev.kind == (if ev.heal.policy.dryRun == Some(false) then ExecutorStart else DryRunOutcome)
  {
    hide Run, Next, GatesPass, ActionAllowed, ExecutorAccepts, KindOf;
    RunKeepsWhole(pm, clock, steps);
    var s := Run(pm, clock, steps);
    assert HealOk(s.store, s.events[e].heal);
    assert EventOk(s, e);
  }

  // ---------- the budget ----------

  /**
   Conservation: every outcome used its own grant, of its own namespace and under its own policy's cap; every
   grant is either in the hand of exactly one thread or has led to exactly one outcome; and the numbers
   balance.
   */
  lemma GrantsBalance(pm: Params, clock: int, steps: seq<Step>, e1: nat, e2: nat, g: nat)
    requires pm.window > 0
    ensures var s := Run(pm, clock, steps);
      && |s.receipts| == |s.ledger.log| == |s.events| + InHand(s.receipts)
      && (e1 < e2 < |s.events| ==> s.events[e1].grant != s.events[e2].grant)
      && (e1 < |s.events| ==>
          && s.events[e1].grant < |s.ledger.log|
          && s.ledger.log[s.events[e1].grant].ns == s.events[e1].heal.obit.spec.subject.ns
          && s.ledger.log[s.events[e1].grant].cap == s.events[e1].heal.policy.maxHealsPerHour.GetOr(5))
      && (g < |s.ledger.log| ==>
          && var r := s.receipts[g];
          && r.holder in s.threads && s.threads[r.holder].grant == Some(g)
          && (r.event.None? <==> s.threads[r.holder].pc.Granted?)
          && (r.event.Some? ==> r.event.value < |s.events| && s.events[r.event.value].grant == g))
  {
    RunKeepsWhole(pm, clock, steps);
    var s := Run(pm, clock, steps);
    if e1 < |s.events| { assert EventOk(s, e1); }
    if e2 < |s.events| { assert EventOk(s, e2); }
    if g < |s.receipts| { assert ReceiptOk(s, g); }
  }

  /** A record says Skipped exactly when its reconcile used no budget, whether its append succeeded or was lost. */
  lemma SkipsAreFree(pm: Params, clock: int, steps: seq<Step>, tid: nat, g: nat)
    requires pm.window > 0 && tid in Run(pm, clock, steps).threads && Run(pm, clock, steps).threads[tid].tried.Some?
    ensures var s := Run(pm, clock, steps);
      var t := s.threads[tid];
      && (t.tried.value.outcome.Skipped? <==> t.grant.None?)
      && (t.tried.value.outcome.Skipped? && g < |s.receipts| ==> s.receipts[g].holder != tid)
  {
    hide Run, Next;
    RunKeepsWhole(pm, clock, steps);
    var s := Run(pm, clock, steps);
    assert PhaseOk(s.threads[tid]);
    if g < |s.receipts| { assert ReceiptOk(s, g); }
  }

  /** The record at a version is the one its reconcile tried to append. */
  lemma CommittedRecordWasTried(pm: Params, clock: int, steps: seq<Step>, k: Key, i: nat)
    requires pm.window > 0
    requires var s := Run(pm, clock, steps); k in s.store && i < |s.store[k]| && s.store[k][i].write.HealWrite?
    ensures var s := Run(pm, clock, steps);
      var w := s.store[k][i].write;
      w.author in s.threads && s.threads[w.author].tried == Some(w.rec) && s.threads[w.author].logged == Some(i)
      && StoreKey(pm, s.threads[w.author].d) == k
  {
    hide Run, Next;
    RunKeepsWhole(pm, clock, steps);
    var s := Run(pm, clock, steps);
    assert WriteOwned(pm, s.threads, k, i, s.store[k][i].write);
  }

  /** A skipped record on any obituary leaves its action empty if and only if it was not the budget that was refused. */
  lemma SkippedActionEmptyIff(pm: Params, clock: int, steps: seq<Step>, k: Key, i: nat)
    requires pm.window > 0
    requires var s := Run(pm, clock, steps); k in s.store && i < |s.store[k]| && s.store[k][i].write.HealWrite?
    requires Run(pm, clock, steps).store[k][i].write.rec.outcome.Skipped?
    ensures var rec := Run(pm, clock, steps).store[k][i].write.rec;
      rec.action == NoAction <==> rec.reason != RateLimited
  {
    hide Run, Next;
    CommittedRecordWasTried(pm, clock, steps, k, i);
    RunIsSound(pm, clock, steps);
    var s := Run(pm, clock, steps);
    assert Truthful(s.receipts, s.events, s.threads[s.store[k][i].write.author]);
  }

  /** Every other record on an obituary tells of the one event its reconcile's grant led to. */
  lemma RecordsTellEvents(pm: Params, clock: int, steps: seq<Step>, k: Key, i: nat)
    requires pm.window > 0
    requires var s := Run(pm, clock, steps); k in s.store && i < |s.store[k]| && s.store[k][i].write.HealWrite?
    requires !Run(pm, clock, steps).store[k][i].write.rec.outcome.Skipped?
    ensures var s := Run(pm, clock, steps);
      var w := s.store[k][i].write;
      w.author in s.threads && s.threads[w.author].grant.Some?
      && var ev := EventOf(s.receipts, s.events, s.threads[w.author].grant);
      ev.Some? && Tells(w.rec, ev.value)
  {
    hide Run, Next, Tells;
    CommittedRecordWasTried(pm, clock, steps, k, i);
    RunIsSound(pm, clock, steps);
    var s := Run(pm, clock, steps);
    assert Truthful(s.receipts, s.events, s.threads[s.store[k][i].write.author]);
  }

  /** Conversely every event is told by the record its reconcile tries to append, once its executor has returned. */
  lemma EventsAreTold(pm: Params, clock: int, steps: seq<Step>, e: nat)
    requires pm.window > 0 && e < |Run(pm, clock, steps).events|
    ensures var s := Run(pm, clock, steps);
      var g := s.events[e].grant;
      g < |s.receipts| && s.receipts[g].holder in s.threads
      && var t := s.threads[s.receipts[g].holder];
      t.pc.Executing? || (t.tried.Some? && Tells(t.tried.value, s.events[e]))
  {
    hide Run, Next, Tells;
    RunKeepsWhole(pm, clock, steps);
    RunIsSound(pm, clock, steps);
    var s := Run(pm, clock, steps);
    assert EventOk(s, e) && ReceiptOk(s, s.events[e].grant);
    var t := s.threads[s.receipts[s.events[e].grant].holder];
    assert PhaseOk(t) && Truthful(s.receipts, s.events, t);
  }

  // ---------- executor starts per window ----------

  predicate StartedFor(s: State, e: nat, ns: string) { e < |s.events| && s.events[e].kind.ExecutorStart? && s.events[e].heal.obit.spec.subject.ns == ns }

  /** Executor starts of a namespace whose budget was reserved in (lo, hi]. */
  ghost function StartsReserved(s: State, ns: string, lo: int, hi: int): set<nat> {
    set e: nat | e < |s.events| && StartedFor(s, e, ns) && s.events[e].grant < |s.ledger.log| && lo < s.ledger.log[s.events[e].grant].time <= hi
  }

  /** Executor starts of a namespace that happened in (lo, hi]. */
  ghost function StartsAt(s: State, ns: string, lo: int, hi: int): set<nat> {
    set e: nat | e < |s.events| && StartedFor(s, e, ns) && lo < s.events[e].at <= hi
  }

  ghost function GrantsIn(log: seq<RateLimit.Grant>, ns: string, lo: int, hi: int): set<nat> {
    set g: nat | g < |log| && RateLimit.InWindow(log[g], ns, lo, hi)
  }

  lemma {:induction false} GrantsInCounted(log: seq<RateLimit.Grant>, ns: string, lo: int, hi: int)
    ensures |GrantsIn(log, ns, lo, hi)| == RateLimit.Count(log, ns, lo, hi)
  {
    if |log| == 0 {
      assert GrantsIn(log, ns, lo, hi) == {};
    } else {
      var n := |log| - 1;
      GrantsInCounted(log[..n], ns, lo, hi);
      assert GrantsIn(log, ns, lo, hi) ==
        GrantsIn(log[..n], ns, lo, hi) + (if RateLimit.InWindow(log[n], ns, lo, hi) then {n} else {});
    }
  }

  /** Starts whose events satisfy a bound on their grants' times are no more than those grants. */
  lemma StartsNeedGrants(s: State, es: set<nat>, ns: string, lo: int, hi: int)
    requires BudgetOk(s)
    requires forall e :: e in es ==> StartedFor(s, e, ns) && s.events[e].grant < |s.ledger.log| && lo < s.ledger.log[s.events[e].grant].time <= hi
    ensures |es| <= RateLimit.Count(s.ledger.log, ns, lo, hi)
  {
    var f := map e | e in es :: s.events[e].grant;
    forall e | e in es ensures f[e] in GrantsIn(s.ledger.log, ns, lo, hi) { assert EventOk(s, e); }
    forall a, b | a in es && b in es && a != b ensures f[a] != f[b] { assert EventOk(s, a) && EventOk(s, b); }
    InjectionCardinality(es, GrantsIn(s.ledger.log, ns, lo, hi), f);
    GrantsInCounted(s.ledger.log, ns, lo, hi);
  }

  lemma WindowInRun(pm: Params, clock: int, steps: seq<Step>, ns: string, t: int)
    requires pm.window > 0
    ensures BudgetOk(Run(pm, clock, steps))
    ensures RateLimit.WindowBounded(Run(pm, clock, steps).ledger.log, ns, t, pm.window)
  {
    RunKeepsWhole(pm, clock, steps);
  }

  /** In any window, the starts reserved in it are within the cap of the window's last grant. */
  lemma StartsWithinCap(pm: Params, clock: int, steps: seq<Step>, ns: string, t: int)
    requires pm.window > 0
    ensures var s := Run(pm, clock, steps);
      var n, last := |StartsReserved(s, ns, t - pm.window, t)|, RateLimit.LastCap(s.ledger.log, ns, t - pm.window, t);
      n == 0 || (last.Some? && n <= last.value)
  {
    WindowInRun(pm, clock, steps, ns, t);
    var s := Run(pm, clock, steps);
    StartsNeedGrants(s, StartsReserved(s, ns, t - pm.window, t), ns, t - pm.window, t);
  }

  /** Every executor starts at most `delay` after its budget was reserved. */
  ghost predicate Prompt(s: State, delay: nat) {
    forall e: nat :: e < |s.events| && s.events[e].kind.ExecutorStart? ==> StartedWithin(s, e, delay)
  }

  predicate StartedWithin(s: State, e: nat, delay: nat)
    requires e < |s.events|
  {
    s.events[e].grant < |s.ledger.log| && s.events[e].at - s.ledger.log[s.events[e].grant].time <= delay
  }

  /** The bound with both starts and grants counted in one window of the clock. */
  ghost predicate ClockBounded(s: State, ns: string, t: int, window: int) {
    var n, last := |StartsAt(s, ns, t - window, t)|, RateLimit.LastCap(s.ledger.log, ns, t - window, t);
    n == 0 || (last.Some? && n <= last.value)
  }

  /** Measured by the start itself the bound holds on windows shortened by the longest wait from grant to start. */
  lemma DelayedStartsWithinCap(pm: Params, clock: int, steps: seq<Step>, ns: string, t: int, delay: nat)
    requires pm.window > 0 && Prompt(Run(pm, clock, steps), delay)
    ensures var s := Run(pm, clock, steps);
      var n, last := |StartsAt(s, ns, t - pm.window + delay, t)|, RateLimit.LastCap(s.ledger.log, ns, t - pm.window, t);
      n == 0 || (last.Some? && n <= last.value)
  {
    WindowInRun(pm, clock, steps, ns, t);
    var s := Run(pm, clock, steps);
    PromptStartsReserved(s, ns, t, pm.window, delay);
    StartsNeedGrants(s, StartsAt(s, ns, t - pm.window + delay, t), ns, t - pm.window, t);
  }

  lemma PromptStartsReserved(s: State, ns: string, t: int, window: int, delay: nat)
    requires BudgetOk(s) && Prompt(s, delay)
    ensures StartsAt(s, ns, t - window + delay, t) <= StartsReserved(s, ns, t - window, t)
  {
    var late, reserved := StartsAt(s, ns, t - window + delay, t), StartsReserved(s, ns, t - window, t);
    forall e | e in late ensures e in reserved {
      assert EventOk(s, e) && StartedWithin(s, e, delay);
    }
  }

  // ---------- dry run ----------

  predicate DryStep(st: Step) { st.Judge? ==> st.policy.dryRun != Some(false) }

  predicate DryThread(t: Thread) {
    match t.pc
    case Reserving(h) => h.policy.dryRun != Some(false)
    case Granted(h, _) => h.policy.dryRun != Some(false)
    case Executing(_, _, _) => false
    case _ => true
  }

  ghost predicate AllDry(s: State) {
    && (forall tid :: tid in s.threads ==> DryThread(s.threads[tid]))
    && s.cluster == [] && forall e :: e in s.events ==> !e.kind.ExecutorStart?
  }

  lemma DryMover(pm: Params, s: State, st: Step)
    requires AllDry(s) && DryStep(st) && Enabled(pm, s, st) && Mover(st).Some?
    ensures Mover(st).value in Next(pm, s, st).threads && DryThread(Next(pm, s, st).threads[Mover(st).value])
  {
    hide AfterGet, AfterJudge, StoreAfterPut, ThreadAfterPut, RateLimit.Call;
    if Mover(st).value in s.threads { assert DryThread(s.threads[Mover(st).value]); }
    match st
    case Get(tid, view) => GetFields(pm, s.store, s.threads[tid], view);
    case Put(tid, fault) => PutFields(pm, s.store, s.threads[tid], fault);
    case Judge(tid, view, policy, nsAllowed, llm) => JudgeFields(pm, s, s.threads[tid], view, policy, nsAllowed, llm);
    case _ =>
  }

  lemma DryEvents(pm: Params, s: State, st: Step)
    requires AllDry(s) && Enabled(pm, s, st)
    ensures var s' := Next(pm, s, st);
      s'.cluster == [] && forall e :: e in s'.events ==> !e.kind.ExecutorStart?
  {
    hide AfterGet, AfterJudge, StoreAfterPut, ThreadAfterPut, RateLimit.Call;
    if Mover(st).Some? && Mover(st).value in s.threads { assert DryThread(s.threads[Mover(st).value]); }
    if st.Settle? {
      var t := s.threads[st.tid];
      assert AfterAct(s, st.tid).events == s.events + [HealEvent(DryRunOutcome, t.pc.grant, s.ledger.clock, t.pc.heal)];
    }
  }

  lemma DryStepKeeps(pm: Params, s: State, st: Step)
    requires AllDry(s) && DryStep(st)
    ensures AllDry(Next(pm, s, st))
  {
    if Enabled(pm, s, st) {
      DryEvents(pm, s, st);
    }
    if Enabled(pm, s, st) && Mover(st).Some? {
      DryMover(pm, s, st);
      forall tid | tid in Next(pm, s, st).threads ensures DryThread(Next(pm, s, st).threads[tid]) {
        if Mover(st) != Some(tid) { OthersUntouched(pm, s, st, tid); }
      }
    }
  }

  /** If every policy consulted has dry-run on, no executor starts and no workload or pod ever changes. */
  lemma {:induction false} DryRunTouchesNothing(pm: Params, clock: int, steps: seq<Step>)
    requires forall st :: st in steps ==> DryStep(st)
    ensures AllDry(Run(pm, clock, steps))
  {
    if |steps| > 0 {
      assert steps[|steps| - 1] in steps;
      DryRunTouchesNothing(pm, clock, steps[..|steps| - 1]);
      DryStepKeeps(pm, Run(pm, clock, steps[..|steps| - 1]), steps[|steps| - 1]);
    }
  }

  /** Every change to the cluster was made by an executor started outside dry-run on a grant. */
  lemma ChangesAreLicensed(pm: Params, clock: int, steps: seq<Step>, i: nat)
    requires pm.window > 0 && i < |Run(pm, clock, steps).cluster|
    ensures var s := Run(pm, clock, steps);
      && s.cluster[i] < |s.events| && s.events[s.cluster[i]].kind.ExecutorStart?
      && s.events[s.cluster[i]].heal.policy.dryRun == Some(false)
      && s.events[s.cluster[i]].grant < |s.ledger.log|
  {
    RunKeepsWhole(pm, clock, steps);
    var s := Run(pm, clock, steps);
    assert EventOk(s, s.cluster[i]);
  }

  // ---------- changes per window ----------

  /** Changes to workloads and pods of a namespace, on budget reserved in (lo, hi]. */
  ghost function ChangesReserved(s: State, ns: string, lo: int, hi: int): set<nat> {
    set i: nat | i < |s.cluster| && s.cluster[i] in StartsReserved(s, ns, lo, hi)
  }

  /** In any window the changes to the cluster, not only the starts, are within the cap of the window's last grant. */
  lemma ChangesWithinCap(pm: Params, clock: int, steps: seq<Step>, ns: string, t: int)
    requires pm.window > 0
    ensures var s := Run(pm, clock, steps);
      var n, last := |ChangesReserved(s, ns, t - pm.window, t)|, RateLimit.LastCap(s.ledger.log, ns, t - pm.window, t);
      n == 0 || (last.Some? && n <= last.value)
  {
    hide Run, Next, RateLimit.LastCap;
    RunIsSound(pm, clock, steps);
    StartsWithinCap(pm, clock, steps, ns, t);
    var s := Run(pm, clock, steps);
    var changes, starts := ChangesReserved(s, ns, t - pm.window, t), StartsReserved(s, ns, t - pm.window, t);
    var f := map i | i in changes :: s.cluster[i];
    forall a, b | a in changes && b in changes && a != b ensures f[a] != f[b] {
      if a < b { assert s.cluster[a] != s.cluster[b]; } else { assert s.cluster[b] != s.cluster[a]; }
    }
    InjectionCardinality(changes, starts, f);
  }
}
