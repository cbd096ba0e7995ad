/**
 The stored obituary, the writes the operator makes to it, and what a chain of such writes adds up
 to (internal/controller/koroner.go:111-200, internal/selfheal/engine.go:216-237,
 api/v1alpha1/obituary_types.go).
 */
module Obituaries {
  import opened Common
  import opened Diagnosis
  import opened Decider
  import Detection
  import Naming
  import Topology

  /** Everything upsertObituary is told about one death: the reconciler's findings and their evidence. */
  datatype Death = Death(
    subject: Topology.Subject, container: string, evidence: Evidence, failureMessage: string, logTail: string,
    owners: seq<Topology.OwnerRecord>, narrative: string, episode: string, lastPod: string, now: int)

  datatype Phase = NoPhase | Investigating | Complete | PhaseFailed

  /** The fields of a status that describe the death itself. */
  datatype Findings = Findings(
    phase: Phase, cause: Cause, confidence: Confidence, summary: Summary, exitCode: Option<int>, signal: Option<int>,
    oomKilled: bool, restartCount: int, logTail: string, timeline: seq<EventRecord>,
    owners: seq<Topology.OwnerRecord>, narrative: string)

  datatype HealOutcome = Applied | DryRun | Skipped | Failed

  datatype Reason = Decided(why: Why) | NothingSupported(kind: Kind) | RateLimited | NoExecutor(a: Action) | ExecutorError(text: string)

  datatype HealRecord = HealRecord(time: int, action: Action, outcome: HealOutcome, detail: string, reason: Reason, decidedBy: string)

  datatype Status = Status(
    findings: Findings, occurrences: int, firstSeen: Option<int>, lastSeen: Option<int>, lastEpisode: string,
    lastPod: string, healAttempts: seq<HealRecord>, lastHealAt: Option<int>)

  datatype Spec = Spec(subject: Topology.Subject, timeOfDeath: int, deathEpisodeKey: string)

  datatype Obituary = Obituary(spec: Spec, status: Status)

  const NO_FINDINGS := Findings(NoPhase, NoCause, Unset, NoSummary, None, None, false, 0, "", [], [], "")

  const EMPTY_STATUS := Status(NO_FINDINGS, 0, None, None, "", "", [], None)

  /** The death a pod reconcile hands to the upsert. */
  function OfPod(pod: Topology.PodId, owners: seq<Topology.OwnerRecord>, d: Detection.PodDeath, events: seq<EventRecord>,
                 logTail: string, narrative: string, now: int): Death
  {
    Death(Topology.WorkloadSubject(pod, owners), d.container, Detection.EvidenceOf(d, events), "", logTail, owners, narrative,
          Naming.Episode(pod.uid, d.restartCount), pod.name, now)
  }

  // ---------- the writes ----------

  function KeyOf(lower: char -> char, d: Death): string {
    Naming.IssueKey(d.subject.ns, d.subject.kind, d.subject.name, d.container, CauseName(Diagnose(lower, d.evidence).cause))
  }

  /** A Job's own failure message, when it gives one, replaces the verdict's summary; pods have none. */
  function SummaryOf(lower: char -> char, d: Death): Summary {
    if d.evidence.jobFailed && d.failureMessage != "" then JobMessage(d.failureMessage)
    else Diagnose(lower, d.evidence).summary
  }

  /** The status buildStatus assembles for a death. */
  function FindingsOf(lower: char -> char, d: Death): Findings {
    var v := Diagnose(lower, d.evidence);
    Findings(Complete, v.cause, v.confidence, SummaryOf(lower, d), d.evidence.exitCode, d.evidence.signal,
             d.evidence.oomKilled, d.evidence.restartCount, d.logTail, d.evidence.events, d.owners, d.narrative)
  }

  /** The object handed to Create: no status yet. */
  function Newborn(lower: char -> char, d: Death): Obituary {
    Obituary(Spec(d.subject, d.now, KeyOf(lower, d)), EMPTY_STATUS)
  }

  /** The status written right after creation. */
  function FirstStatus(lower: char -> char, d: Death): Status {
    Status(FindingsOf(lower, d), 1, Some(d.now), Some(d.now), d.episode, d.lastPod, [], None)
  }

  /** The bump: the whole status is replaced, heal trail included; only the count and FirstSeen carry over. */
  function Bump(lower: char -> char, st: Status, d: Death): Status {
    Status(FindingsOf(lower, d), st.occurrences + 1, if st.firstSeen.Some? then st.firstSeen else Some(d.now),
           Some(d.now), d.episode, d.lastPod, [], None)
  }

  function LastN<T>(s: seq<T>, n: nat): seq<T> { if |s| > n then s[|s| - n..] else s }

  function Trim(trail: seq<HealRecord>, maxAttempts: int): seq<HealRecord> {
    if maxAttempts > 0 then LastN(trail, maxAttempts) else trail
  }

  function AppendHeal(st: Status, rec: HealRecord, maxAttempts: int): Status {
    st.(healAttempts := Trim(st.healAttempts + [rec], maxAttempts), lastHealAt := Some(rec.time))
  }

  /** Field by field, the findings are the evidence of d and what it was diagnosed as. */
  predicate ShowsDeath(lower: char -> char, f: Findings, d: Death) {
    var v := Diagnose(lower, d.evidence);
    && f.phase == Complete && f.cause == v.cause && f.confidence == v.confidence
    && f.summary == (if d.evidence.jobFailed && d.failureMessage != "" then JobMessage(d.failureMessage) else v.summary)
    && f.exitCode == d.evidence.exitCode && f.signal == d.evidence.signal && f.oomKilled == d.evidence.oomKilled
    && f.restartCount == d.evidence.restartCount && f.timeline == d.evidence.events
    && f.logTail == d.logTail && f.owners == d.owners && f.narrative == d.narrative
  }

  /** A freshly created object: it names the death's subject, time and issue, and has no status. */
  predicate BornOf(lower: char -> char, o: Obituary, d: Death) {
    && o.spec.subject == d.subject && o.spec.timeOfDeath == d.now
    && o.spec.deathEpisodeKey == d.subject.ns + "/" + d.subject.kind + "/" + d.subject.name + "/" + d.container + "/"
                                 + CauseName(Diagnose(lower, d.evidence).cause)
    && o.status.occurrences == 0 && o.status.lastEpisode == "" && o.status.findings.phase == NoPhase
    && o.status.firstSeen == None && o.status.lastSeen == None && o.status.healAttempts == [] && o.status.lastHealAt == None
  }

  /** Counting a death: every field of the object afterwards. */
  predicate CountsDeath(lower: char -> char, prev: Obituary, next: Obituary, d: Death) {
    && next.spec == prev.spec
    && ShowsDeath(lower, next.status.findings, d)
    && next.status.occurrences == prev.status.occurrences + 1
    && next.status.firstSeen == (if prev.status.firstSeen.Some? then prev.status.firstSeen else Some(d.now))
    && next.status.lastSeen == Some(d.now) && next.status.lastEpisode == d.episode && next.status.lastPod == d.lastPod
    && next.status.healAttempts == [] && next.status.lastHealAt == None
  }

  /** Adding a heal record: the trail grows by it and is cut from the front, nothing else but its time changes. */
  predicate AddsRecord(prev: Obituary, next: Obituary, rec: HealRecord, maxAttempts: int) {
    var all := prev.status.healAttempts + [rec];
    && next.spec == prev.spec
    && next.status == prev.status.(healAttempts := next.status.healAttempts, lastHealAt := Some(rec.time))
    && next.status.healAttempts == (if 0 < maxAttempts < |all| then all[|all| - maxAttempts..] else all)
  }

  /**
   From a crashed container to the record: its name, restart count and termination are what the findings show, and the
   episode is the pod's UID with the restart count.
   */
  lemma PodDeathIs(lower: char -> char, pod: Topology.PodId, owners: seq<Topology.OwnerRecord>, cs: Detection.ContainerStatus,
                   d: Detection.PodDeath, events: seq<EventRecord>, logTail: string, narrative: string, now: int)
    requires Detection.DeathShows(cs, d)
    ensures var death := OfPod(pod, owners, d, events, logTail, narrative, now);
      var f, t := FindingsOf(lower, death), Detection.Reported(cs);
      && death.subject == Topology.WorkloadSubject(pod, owners) && death.container == cs.name && death.lastPod == pod.name && death.now == now
      && death.episode == pod.uid + "/" + Naming.Decimal(cs.restartCount)
      && f.restartCount == cs.restartCount && f.timeline == events && f.owners == owners && f.logTail == logTail
      && f.narrative == narrative
      && f.exitCode == (if t.Some? then Some(t.value.exitCode) else None)
      && f.signal == (if t.Some? && t.value.signal != 0 then Some(t.value.signal) else None)
      && (f.oomKilled <==> t.Some? && t.value.reason == "OOMKilled")
      && f.summary == Diagnose(lower, death.evidence).summary
  {
    hide Diagnose;
  }

  /** Two crashes of one pod are the same episode exactly when its restart count is the same. */
  lemma SameEpisodeIff(pod: Topology.PodId, owners: seq<Topology.OwnerRecord>, c1: Detection.ContainerStatus, d1: Detection.PodDeath,
                       c2: Detection.ContainerStatus, d2: Detection.PodDeath, events: seq<EventRecord>, now: int)
    requires Detection.DeathShows(c1, d1) && Detection.DeathShows(c2, d2)
    ensures OfPod(pod, owners, d1, events, "", "", now).episode == OfPod(pod, owners, d2, events, "", "", now).episode
      <==> c1.restartCount == c2.restartCount
  {
    if OfPod(pod, owners, d1, events, "", "", now).episode == OfPod(pod, owners, d2, events, "", "", now).episode {
      Naming.EpisodeInjective(pod.uid, c1.restartCount, c2.restartCount);
    }
  }

  lemma DeathWritesAre(lower: char -> char, prev: Obituary, d: Death)
    ensures BornOf(lower, Newborn(lower, d), d)
    ensures CountsDeath(lower, prev, prev.(status := Bump(lower, prev.status, d)), d)
    ensures CountsDeath(lower, Newborn(lower, d), Newborn(lower, d).(status := FirstStatus(lower, d)), d)
  {
    hide Diagnose;
  }

  // ---------- committed versions ----------

  /** Which write produced a version; `author` is the reconcile that made it. */
  datatype Write =
    | Created(author: nat, d: Death)
    | DeathWrite(author: nat, d: Death)
    | HealWrite(author: nat, rec: HealRecord)
    | ForeignWrite  // someone else touched the object's metadata

  datatype Version = Version(obit: Obituary, write: Write)

  /** The operator's fixed settings that shape a write. */
  datatype Operator = Operator(lower: char -> char, maxAttempts: int)

  /** A version follows its predecessor by exactly one write of the operator (or a metadata write). */
  predicate Follows(p: Operator, prev: Obituary, v: Version) {
    match v.write
    case Created(_, _) => false
    case DeathWrite(_, d) => prev.status.lastEpisode != d.episode && v.obit == prev.(status := Bump(p.lower, prev.status, d))
    case HealWrite(_, rec) => v.obit == prev.(status := AppendHeal(prev.status, rec, p.maxAttempts))
    case ForeignWrite => v.obit == prev
  }

  ghost predicate Linear(p: Operator, h: seq<Version>) {
    && |h| > 0
    && h[0].write.Created? && h[0].obit == Newborn(p.lower, h[0].write.d)
    && forall i :: 0 < i < |h| ==> Follows(p, h[i - 1].obit, h[i])
  }

  /** Creation followed by the first status is a bump of the empty status. */
  lemma FirstStatusIsBump(lower: char -> char, d: Death)
    ensures FirstStatus(lower, d) == Bump(lower, EMPTY_STATUS, d)
  {
  }

  lemma LinearSnoc(p: Operator, h: seq<Version>, v: Version)
    requires Linear(p, h) && Follows(p, h[|h| - 1].obit, v)
    ensures Linear(p, h + [v])
  {
  }

  lemma LinearPrefix(p: Operator, h: seq<Version>, n: nat)
    requires Linear(p, h) && 0 < n <= |h|
    ensures Linear(p, h[..n])
  {
  }

  // ---------- logs read off the versions ----------

  function Deaths(h: seq<Version>): seq<Death> {
    if |h| == 0 then []
    else Deaths(h[..|h| - 1]) + (if h[|h| - 1].write.DeathWrite? then [h[|h| - 1].write.d] else [])
  }

  function RecordsSinceDeath(h: seq<Version>): seq<HealRecord> {
    if |h| == 0 || h[|h| - 1].write.DeathWrite? then []
    else RecordsSinceDeath(h[..|h| - 1]) + (if h[|h| - 1].write.HealWrite? then [h[|h| - 1].write.rec] else [])
  }

  function Episodes(ds: seq<Death>): seq<string> { seq(|ds|, i requires 0 <= i < |ds| => ds[i].episode) }

  /** The status in closed form: a function of the two logs alone. */
  function StatusFrom(p: Operator, ds: seq<Death>, records: seq<HealRecord>): Status {
    var heal := if records == [] then None else Some(records[|records| - 1].time);
    if ds == [] then EMPTY_STATUS.(healAttempts := Trim(records, p.maxAttempts), lastHealAt := heal)
    else
      var last := ds[|ds| - 1];
      Status(FindingsOf(p.lower, last), |ds|, Some(ds[0].now), Some(last.now), last.episode, last.lastPod,
             Trim(records, p.maxAttempts), heal)
  }

  lemma TrimSnoc(records: seq<HealRecord>, rec: HealRecord, maxAttempts: int)
    ensures Trim(Trim(records, maxAttempts) + [rec], maxAttempts) == Trim(records + [rec], maxAttempts)
  {
  }

  lemma LogsOfNewborn(h: seq<Version>)
    requires |h| == 1 && h[0].write.Created?
    ensures Deaths(h) == [] && RecordsSinceDeath(h) == []
  {
    assert h[..0] == [];
    assert Deaths(h[..0]) == [] && RecordsSinceDeath(h[..0]) == [];
  }

  /** One write takes the closed form of the logs to the closed form of the longer logs. */
  lemma ClosedFormStep(p: Operator, prev: Obituary, ds: seq<Death>, records: seq<HealRecord>, v: Version)
    requires prev.status == StatusFrom(p, ds, records) && Follows(p, prev, v)
    ensures v.obit.spec == prev.spec
    ensures v.obit.status == match v.write
      case DeathWrite(_, d) => StatusFrom(p, ds + [d], [])
      case HealWrite(_, rec) => StatusFrom(p, ds, records + [rec])
      case _ => StatusFrom(p, ds, records)
  {
    hide FindingsOf;
    if v.write.HealWrite? { TrimSnoc(records, v.write.rec, p.maxAttempts); }
  }

  /** In every chain of writes the stored status is the closed form of its logs, and the spec never changes. */
  lemma {:induction false} StatusIsClosedForm(p: Operator, h: seq<Version>)
    requires Linear(p, h)
    ensures h[|h| - 1].obit.status == StatusFrom(p, Deaths(h), RecordsSinceDeath(h))
    ensures h[|h| - 1].obit.spec == h[0].obit.spec
  {
    hide StatusFrom, FindingsOf;
    if |h| == 1 {
      LogsOfNewborn(h);
      ClosedFormOfNewborn(p, h[0].write.d);
    } else {
      var front := h[..|h| - 1];
      LinearPrefix(p, h, |h| - 1);
      StatusIsClosedForm(p, front);
      assert Follows(p, front[|front| - 1].obit, h[|h| - 1]);
      ClosedFormStep(p, front[|front| - 1].obit, Deaths(front), RecordsSinceDeath(front), h[|h| - 1]);
      assert !h[|h| - 1].write.DeathWrite? ==> Deaths(h) == Deaths(front);
      assert h[|h| - 1].write.ForeignWrite? ==> RecordsSinceDeath(h) == RecordsSinceDeath(front);
    }
  }

  lemma ClosedFormOfNewborn(p: Operator, d: Death)
    ensures Newborn(p.lower, d).status == StatusFrom(p, [], [])
  {
  }

  predicate NoAdjacentRepeat(e: seq<string>) {
    forall i :: 0 < i < |e| ==> e[i - 1] != e[i]
  }

  lemma EpisodesSnoc(ds: seq<Death>, d: Death)
    ensures Episodes(ds + [d]) == Episodes(ds) + [d.episode]
  {
  }

  lemma RepeatSnoc(e: seq<string>, x: string)
    requires NoAdjacentRepeat(e) && (e != [] ==> e[|e| - 1] != x)
    ensures NoAdjacentRepeat(e + [x])
  {
  }

  /** A committed death write differs in episode from the death counted before it. */
  lemma DeathDiffersFromLast(p: Operator, h: seq<Version>)
    requires Linear(p, h) && |h| > 1 && h[|h| - 1].write.DeathWrite?
    ensures var e := Episodes(Deaths(h[..|h| - 1]));
      e != [] ==> e[|e| - 1] != h[|h| - 1].write.d.episode
  {
    hide FindingsOf, Bump, AppendHeal, Newborn, Trim;
    LinearPrefix(p, h, |h| - 1);
    StatusIsClosedForm(p, h[..|h| - 1]);
    assert Follows(p, h[|h| - 2].obit, h[|h| - 1]);
  }

  lemma {:induction false} AdjacentEpisodesDiffer(p: Operator, h: seq<Version>)
    requires Linear(p, h)
    ensures NoAdjacentRepeat(Episodes(Deaths(h)))
  {
    if |h| == 1 {
      assert h[..0] == [];
      assert Deaths(h) == [];
    } else {
      var ds := Deaths(h[..|h| - 1]);
      LinearPrefix(p, h, |h| - 1);
      AdjacentEpisodesDiffer(p, h[..|h| - 1]);
      if h[|h| - 1].write.DeathWrite? {
        DeathDiffersFromLast(p, h);
        EpisodesSnoc(ds, h[|h| - 1].write.d);
        RepeatSnoc(Episodes(ds), h[|h| - 1].write.d.episode);
      } else {
        assert Deaths(h) == ds;
      }
    }
  }

  // ---------- counting ----------

  /** The number of maximal runs of equal entries. */
  function Blocks(e: seq<string>): nat {
    if |e| == 0 then 0
    else Blocks(e[..|e| - 1]) + (if |e| == 1 || e[|e| - 2] != e[|e| - 1] then 1 else 0)
  }

  function Distinct(e: seq<string>): set<string> { set x | x in e }

  lemma {:induction false} BlocksWithoutRepeat(e: seq<string>)
    requires NoAdjacentRepeat(e)
    ensures Blocks(e) == |e|
  {
    if |e| > 0 { BlocksWithoutRepeat(e[..|e| - 1]); }
  }

  lemma DistinctSnoc(e: seq<string>, x: string)
    ensures Distinct(e + [x]) == Distinct(e) + {x}
  {
  }

  lemma {:induction false} DistinctAtMostBlocks(e: seq<string>)
    ensures |Distinct(e)| <= Blocks(e)
  {
    if |e| > 0 {
      var front := e[..|e| - 1];
      assert e == front + [e[|e| - 1]];
      DistinctAtMostBlocks(front);
      DistinctSnoc(front, e[|e| - 1]);
      if |e| > 1 && e[|e| - 2] == e[|e| - 1] {
        assert front[|front| - 1] in front;
        assert Distinct(e) == Distinct(front);
      }
    }
  }

  lemma {:induction false} DistinctOfInjective(e: seq<string>)
    requires forall i, j :: 0 <= i < j < |e| ==> e[i] != e[j]
    ensures |Distinct(e)| == |e|
  {
    if |e| > 0 {
      var front := e[..|e| - 1];
      assert e == front + [e[|e| - 1]];
      DistinctOfInjective(front);
      DistinctSnoc(front, e[|e| - 1]);
      assert e[|e| - 1] !in front;
    }
  }

  /** An episode never returns after it was counted. */
  ghost predicate NeverReturns(e: seq<string>) { forall i, j :: 0 <= i < j < |e| ==> e[i] != e[j] }

  lemma {:induction false} DistinctAtMostLength(e: seq<string>)
    ensures |Distinct(e)| <= |e|
  {
    if |e| > 0 {
      assert e == e[..|e| - 1] + [e[|e| - 1]];
      DistinctAtMostLength(e[..|e| - 1]);
      DistinctSnoc(e[..|e| - 1], e[|e| - 1]);
    }
  }

  /** A log has as many distinct episodes as entries exactly when none returns. */
  lemma {:induction false} AllDistinctIff(e: seq<string>)
    ensures |Distinct(e)| == |e| <==> NeverReturns(e)
  {
    if NeverReturns(e) { DistinctOfInjective(e); }
    if |Distinct(e)| == |e| && |e| > 0 {
      var front, x := e[..|e| - 1], e[|e| - 1];
      assert e == front + [x];
      DistinctSnoc(front, x);
      DistinctAtMostLength(front);
      AllDistinctIff(front);
      assert x in front ==> Distinct(front) + {x} == Distinct(front);
      forall i, j | 0 <= i < j < |e| ensures e[i] != e[j] {
        if j < |front| { assert front[i] != front[j]; } else { assert front[i] in front; }
      }
    }
  }

  /** The log was driven by one pod whose restart counts, in commit order, never go down. */
  ghost predicate OnePod(e: seq<string>, uid: string, counts: seq<int>) {
    && |counts| == |e|
    && (forall i :: 0 <= i < |e| ==> e[i] == Naming.Episode(uid, counts[i]))
    && (forall i, j :: 0 <= i <= j < |e| ==> counts[i] <= counts[j])
  }

  lemma OnePodNeverRepeats(e: seq<string>, uid: string, counts: seq<int>, i: nat, j: nat)
    requires NoAdjacentRepeat(e) && OnePod(e, uid, counts) && i < j < |e|
    ensures e[i] != e[j]
  {
    assert e[i] != e[i + 1] && counts[i] <= counts[i + 1] <= counts[j];
    if e[i] == e[j] {
      Naming.EpisodeInjective(uid, counts[i], counts[j]);
    }
  }

  /**
   Occurrences is the number of committed death writes, the number of equal-episode blocks of the commit log, at
   least the number of distinct episodes, and equal to it exactly when no episode returns after another was counted,
   as when one pod's restart counts drive the obituary.
   */
  lemma OccurrencesCount(p: Operator, h: seq<Version>, uid: string, counts: seq<int>)
    requires Linear(p, h)
    ensures var e, n := Episodes(Deaths(h)), h[|h| - 1].obit.status.occurrences;
      && n == |Deaths(h)| == Blocks(e)
      && n >= |Distinct(e)|
      && (n == |Distinct(e)| <==> NeverReturns(e))
      && (OnePod(e, uid, counts) ==> n == |Distinct(e)|)
  {
    var e := Episodes(Deaths(h));
    StatusIsClosedForm(p, h);
    AdjacentEpisodesDiffer(p, h);
    BlocksWithoutRepeat(e);
    DistinctAtMostBlocks(e);
    AllDistinctIff(e);
    if OnePod(e, uid, counts) {
      forall i, j | 0 <= i < j < |e| ensures e[i] != e[j] { OnePodNeverRepeats(e, uid, counts, i, j); }
    }
  }

  lemma LogDeath(h: seq<Version>, author: nat, o: Obituary, d: Death)
    ensures Deaths(h + [Version(o, DeathWrite(author, d))]) == Deaths(h) + [d]
  {
    assert (h + [Version(o, DeathWrite(author, d))])[..|h|] == h;
  }

  // ---------- coherence ----------

  /** All findings stem from one death, the last committed one, and FirstSeen from the first. */
  lemma FindingsFromOneDeath(p: Operator, h: seq<Version>)
    requires Linear(p, h)
    ensures var st, ds := h[|h| - 1].obit.status, Deaths(h);
      if ds == [] then st.findings == NO_FINDINGS && st.firstSeen == None
      else
        var d := ds[|ds| - 1];
        && st.findings == FindingsOf(p.lower, d) && ShowsDeath(p.lower, st.findings, d)
        && st.lastEpisode == d.episode && st.lastPod == d.lastPod && st.lastSeen == Some(d.now)
        && st.firstSeen == Some(ds[0].now)
        && DiagnosablePair(st.findings.cause, st.findings.confidence)
  {
    StatusIsClosedForm(p, h);
  }

  lemma {:induction false} DeathsAreWritten(h: seq<Version>, d: Death)
    requires d in Deaths(h)
    ensures exists i :: 0 <= i < |h| && h[i].write.DeathWrite? && h[i].write.d == d
  {
    if h[|h| - 1].write.DeathWrite? && h[|h| - 1].write.d == d {
    } else {
      DeathsAreWritten(h[..|h| - 1], d);
      var i :| 0 <= i < |h| - 1 && h[..|h| - 1][i].write.DeathWrite? && h[..|h| - 1][i].write.d == d;
      assert h[i].write.d == d;
    }
  }

  /** The trail is exactly the newest records committed since the last death, in commit order. */
  lemma TrailIsNewestRecords(p: Operator, h: seq<Version>)
    requires Linear(p, h) && p.maxAttempts > 0
    ensures var k, trail := |RecordsSinceDeath(h)|, h[|h| - 1].obit.status.healAttempts;
      && |trail| == (if k < p.maxAttempts then k else p.maxAttempts)
      && trail == RecordsSinceDeath(h)[k - |trail|..]
      && h[|h| - 1].obit.status.lastHealAt == (if k == 0 then None else Some(RecordsSinceDeath(h)[k - 1].time))
  {
    hide FindingsOf, Linear;
    StatusIsClosedForm(p, h);
  }
}
