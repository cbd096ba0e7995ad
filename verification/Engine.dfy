/** The heal engine: MaybeHeal's gates, its use of the limiter, and the audit trail
    (internal/selfheal/engine.go). */
module Engine {
  import opened Common
  import opened Diagnosis
  import opened Decider
  import opened Obituaries
  import RateLimit
  import Retry

  /** SelfHealPolicy; `actions` empty means unset. */
  datatype HealPolicy = HealPolicy(
    enabled: bool, dryRun: Option<bool>, minOccurrences: Option<int>, requireHighConfidence: Option<bool>,
    maxHealsPerHour: Option<int>, actions: seq<Action>)

  const DEFAULT_MIN_OCCURRENCES := 3
  const DEFAULT_MAX_HEALS_PER_HOUR := 5

  function MinOccurrences(p: HealPolicy): int { p.minOccurrences.GetOr(DEFAULT_MIN_OCCURRENCES) }

  function Cap(p: HealPolicy): int { p.maxHealsPerHour.GetOr(DEFAULT_MAX_HEALS_PER_HOUR) }

  predicate NeedsHighConfidence(p: HealPolicy) { p.requireHighConfidence.GetOr(true) }

  predicate DryRunOn(p: HealPolicy) { p.dryRun.GetOr(true) }

  function Allowlist(p: HealPolicy): seq<Action> { if p.actions == [] then DefaultActions() else p.actions }

  function KindOf(name: string): Kind {
    if name == "Deployment" then Deployment
    else if name == "StatefulSet" then StatefulSet
    else if name == "DaemonSet" then DaemonSet
    else if name == "Pod" then Pod
    else if name == "Job" then Job
    else if name == "CronJob" then CronJob
    else OtherKind(name)
  }

  function SubjectKind(o: Obituary): Kind { KindOf(o.spec.subject.kind) }

  /** The gates that fail without leaving a record. */
  predicate GatesPass(o: Obituary, p: HealPolicy, nsAllowed: bool) {
    && p.enabled
    && o.status.findings.phase == Complete
    && o.status.occurrences >= MinOccurrences(p)
    && (NeedsHighConfidence(p) ==> o.status.findings.confidence == High)
    && nsAllowed
  }

  datatype Assessment = Silent | SkipWith(reason: Reason, decidedBy: string) | Act(decision: Decision)

  function Assess(decode: Decoder, o: Obituary, p: HealPolicy, nsAllowed: bool, llm: Option<Reply>): Assessment {
    if !GatesPass(o, p, nsAllowed) then Silent
    else if |Applicable(SubjectKind(o), Allowlist(p))| == 0 then SkipWith(NothingSupported(SubjectKind(o)), "engine")
    else
      var d := ProductionDecide(decode, SubjectKind(o), o.status.findings.cause, Allowlist(p), llm);
      if d.action == NoAction then SkipWith(Decided(d.why), d.decidedBy) else Act(d)
  }

  /** The gates, in the policy's own fields and defaults. */
  predicate Gated(o: Obituary, p: HealPolicy, nsAllowed: bool) {
    && p.enabled
    && o.status.findings.phase == Complete
    && o.status.occurrences >= (if p.minOccurrences.Some? then p.minOccurrences.value else 3)
    && (p.requireHighConfidence == Some(false) || o.status.findings.confidence == High)
    && nsAllowed
  }

  /** The policy's allowlist; unset, all four actions. */
  function Allowed(p: HealPolicy): seq<Action> {
    if p.actions == [] then [DeletePod, RestartWorkload, BumpMemory, RollbackDeployment] else p.actions
  }

  /** Exactly when the engine acts and with which action, and exactly when it stays silent. */
  lemma AssessActsIff(decode: Decoder, o: Obituary, p: HealPolicy, nsAllowed: bool, llm: Option<Reply>, x: Action)
    requires x != NoAction
    ensures var a, kind, cause := Assess(decode, o, p, nsAllowed, llm), KindOf(o.spec.subject.kind), o.status.findings.cause;
      && (a.Silent? <==> !Gated(o, p, nsAllowed))
      && (a.Act? ==> a.decision.action != NoAction)
      && (a.Act? && a.decision.action == x <==>
          && Gated(o, p, nsAllowed)
          && if RuleActs(kind, cause, Allowed(p)) then x == RuleFor(kind, cause).value
             else
               && llm.Some? && llm.value.Text?
               && x in Allowed(p) && KindSupports(kind, x)
               && ParseDecision(decode, llm.value.raw).Some? && ParseDecision(decode, llm.value.raw).value.action == x)
  {
    var kind, cause := KindOf(o.spec.subject.kind), o.status.findings.cause;
    assert Allowed(p) == Allowlist(p) && SubjectKind(o) == kind;
    ProductionActs(decode, kind, cause, Allowed(p), llm, x);
    ApplicableIsIntersection(kind, Allowed(p), x);
    hide KindOf, RuleActs, RuleFor, ParseDecision, ProductionDecide, KindSupports, Applicable;
  }

  /** A skip before the decider says the menu is empty; a skip by the decider carries its reason and name. */
  lemma SkipReasons(decode: Decoder, o: Obituary, p: HealPolicy, nsAllowed: bool, llm: Option<Reply>)
    ensures var a, kind := Assess(decode, o, p, nsAllowed, llm), KindOf(o.spec.subject.kind);
      var d := ProductionDecide(decode, kind, o.status.findings.cause, Allowed(p), llm);
      a.SkipWith? ==>
        if exists x :: x in Allowed(p) && KindSupports(kind, x) then a == SkipWith(Decided(d.why), d.decidedBy) && d.action == NoAction
        else a == SkipWith(NothingSupported(kind), "engine")
  {
    var kind := KindOf(o.spec.subject.kind);
    var menu := Applicable(kind, Allowed(p));
    if |menu| > 0 {
      ApplicableIsIntersection(kind, Allowed(p), menu[0]);
    } else if x :| x in Allowed(p) && KindSupports(kind, x) {
      ApplicableIsIntersection(kind, Allowed(p), x);
    }
  }

  function KindName(k: Kind): string {
    match k
    case Deployment => "Deployment"
    case StatefulSet => "StatefulSet"
    case DaemonSet => "DaemonSet"
    case Pod => "Pod"
    case Job => "Job"
    case CronJob => "CronJob"
    case OtherKind(name) => name
  }

  /** Kinds and their names correspond one to one. */
  lemma KindNames(k: Kind, name: string)
    ensures KindName(KindOf(name)) == name
    ensures !k.OtherKind? ==> KindOf(KindName(k)) == k
  {
    assert |"Deployment"| == 10 && |"StatefulSet"| == 11 && |"DaemonSet"| == 9 && |"Pod"| == 3 && |"Job"| == 3 && |"CronJob"| == 7;
    assert "Pod"[0] == 'P' && "Job"[0] == 'J';
  }

  /** An assessment that acts has passed every gate and is fit for its executor. */
  lemma ActIsExecutable(decode: Decoder, o: Obituary, p: HealPolicy, nsAllowed: bool, llm: Option<Reply>)
    ensures var a := Assess(decode, o, p, nsAllowed, llm);
      a.Act? ==> GatesPass(o, p, nsAllowed) && Executable(a.decision.action, SubjectKind(o), Allowlist(p))
  {
    DeciderExecutorAgreement(decode, SubjectKind(o), o.status.findings.cause, Allowlist(p), llm);
  }

  // ---------- records ----------

  function SkipRecord(time: int, reason: Reason, decider: string): HealRecord {
    HealRecord(time, NoAction, Skipped, "", reason, decider)
  }

  function LimitedRecord(time: int, d: Decision): HealRecord {
    HealRecord(time, d.action, Skipped, "", RateLimited, d.decidedBy)
  }

  function DryRunRecord(time: int, d: Decision): HealRecord {
    HealRecord(time, d.action, DryRun, "dry-run: would execute " + ActionName(d.action), Decided(d.why), d.decidedBy)
  }

  function MissingRecord(time: int, d: Decision): HealRecord {
    HealRecord(time, d.action, Failed, "", NoExecutor(d.action), d.decidedBy)
  }

  /** What an executor returns: a detail and possibly an error. */
  datatype ExecResult = ExecResult(detail: string, error: Option<string>)

  function ExecRecord(time: int, d: Decision, r: ExecResult): HealRecord {
    if r.error.Some? then HealRecord(time, d.action, Failed, r.detail, ExecutorError(r.error.value), d.decidedBy)
    else HealRecord(time, d.action, Applied, r.detail, Decided(d.why), d.decidedBy)
  }

  /** The record one MaybeHeal call tries to append, if any. */
  function RecordFor(a: Assessment, granted: bool, p: HealPolicy, r: ExecResult, time: int): Option<HealRecord> {
    match a
    case Silent => None
    case SkipWith(reason, decider) => Some(SkipRecord(time, reason, decider))
    case Act(d) =>
      if !granted then Some(LimitedRecord(time, d))
      else if DryRunOn(p) then Some(DryRunRecord(time, d))
      else if Executors(d.action).None? then Some(MissingRecord(time, d))
      else Some(ExecRecord(time, d, r))
  }

  /** The record of each course of events, field by field. */
  lemma RecordForIs(a: Assessment, granted: bool, p: HealPolicy, r: ExecResult, time: int)
    ensures a.Silent? <==> RecordFor(a, granted, p, r, time).None?
    ensures !a.Silent? ==>
      var rec := RecordFor(a, granted, p, r, time).value;
      && rec.time == time
      && match a
         case SkipWith(reason, decider) =>
           rec.outcome == Skipped && rec.action == NoAction && rec.reason == reason && rec.decidedBy == decider && rec.detail == ""
         case Act(d) =>
           && rec.action == d.action && rec.decidedBy == d.decidedBy
           && (!granted ==> rec.outcome == Skipped && rec.reason == RateLimited && rec.detail == "")
           && (granted && p.dryRun != Some(false) ==>
               && rec.outcome == DryRun && rec.reason == Decided(d.why)
               && (d.action == DeletePod ==> rec.detail == "dry-run: would execute " + "DeletePod")
               && (d.action == RestartWorkload ==> rec.detail == "dry-run: would execute " + "RestartWorkload")
               && (d.action == BumpMemory ==> rec.detail == "dry-run: would execute " + "BumpMemory")
               && (d.action == RollbackDeployment ==> rec.detail == "dry-run: would execute " + "RollbackDeployment"))
           && (granted && p.dryRun == Some(false) && d.action in {DeletePod, RestartWorkload, BumpMemory, RollbackDeployment} ==>
               && rec.detail == r.detail
               && match r.error
                  case None => rec.outcome == Applied && rec.reason == Decided(d.why)
                  case Some(text) => rec.outcome == Failed && rec.reason == ExecutorError(text))
           && (granted && p.dryRun == Some(false) && d.action.OtherAction? ==>
               rec.outcome == Failed && rec.reason == NoExecutor(d.action))
         case Silent => true
  {
  }

  // ---------- the imperative engine ----------

  /** The closure appendRecord retries. */
  function AddRecord(rec: HealRecord, maxAttempts: int): Obituary -> Option<Obituary> {
    (prev: Obituary) => Some(prev.(status := AppendHeal(prev.status, rec, maxAttempts)))
  }

  function Appended(w: Retry.World<Obituary>, rec: HealRecord, maxAttempts: int, steps: nat): (Retry.World<Obituary>, bool) {
    var (w', r) := Retry.Attempt(w, AddRecord(rec, maxAttempts), steps, None);
    (w', r.Wrote?)
  }

  lemma RecordAdded(prev: Obituary, rec: HealRecord, maxAttempts: int)
    ensures AddRecord(rec, maxAttempts)(prev).Some? && AddsRecord(prev, AddRecord(rec, maxAttempts)(prev).value, rec, maxAttempts)
  {
  }

  /** appendRecord: at most one own version, adding the record to the version directly before it. */
  method AppendRecord(o: Retry.ApiObject<Obituary>, rec: HealRecord, maxAttempts: int, steps: nat) returns (done: bool)
    modifies o
    ensures done <==> Retry.Lands(old(o.script), |old(o.history)|, steps)
    ensures (o.Now(), done) == Appended(old(o.Now()), rec, maxAttempts, steps)
    ensures old(o.history) <= o.history
    ensures done ==>
      && |o.history| >= 2 && o.own == old(o.own) + [|o.history| - 1]
      && var prev := o.history[|o.history| - 2];
         AddsRecord(prev, o.history[|o.history| - 1], rec, maxAttempts)
    ensures !done ==> o.own == old(o.own)
    ensures old(Retry.Live(o.script)) && old(o.history) != [] && !done ==> |o.history| >= |old(o.history)| + steps
  {
    hide AddsRecord, AppendHeal, Retry.Attempt, Retry.Lands, Retry.Live;
    var change := AddRecord(rec, maxAttempts);
    Retry.WroteIffLands(o.Now(), change, steps, None);
    var r := Retry.RetryOnConflict(o, change, steps);
    done := r.Wrote?;
    if done { RecordAdded(o.history[|o.history| - 2], rec, maxAttempts); }
  }

  /**
   MaybeHeal.  The budget is touched only by a decision to act; the executor starts only on a grant outside
   dry-run; and whatever is recorded is the one record of that course of events.
   */
  method MaybeHeal(limiter: RateLimit.RateLimiter, o: Retry.ApiObject<Obituary>, decode: Decoder, snapshot: Obituary,
                   p: HealPolicy, nsAllowed: bool, llm: Option<Reply>, now: int, exec: Executor -> ExecResult,
                   maxAttempts: int, steps: nat)
    returns (granted: bool, started: bool, logged: bool)
    requires limiter.Valid()
    modifies limiter`history, if snapshot.spec.subject.ns in limiter.history then {limiter.history[snapshot.spec.subject.ns].buf} else {}, o
    ensures limiter.Valid()
    ensures var a, ns := Assess(decode, snapshot, p, nsAllowed, llm), snapshot.spec.subject.ns;
      if a.Act? then
        (limiter.Contents(ns), granted) == RateLimit.ReserveOne(old(limiter.Contents(ns)), now, limiter.window, p.maxHealsPerHour.GetOr(5))
      else !granted && limiter.history == old(limiter.history) && limiter.Contents(ns) == old(limiter.Contents(ns))
    ensures started <==> granted && p.dryRun == Some(false)
    ensures old(o.history) <= o.history
    ensures !logged ==> o.own == old(o.own)
    // a decision leaves its record exactly when an append lands
    ensures logged <==> !Assess(decode, snapshot, p, nsAllowed, llm).Silent? && Retry.Lands(old(o.script), |old(o.history)|, steps)
    ensures Assess(decode, snapshot, p, nsAllowed, llm).Silent? ==> !logged && o.history == old(o.history)
    ensures old(Retry.Live(o.script)) && old(o.history) != [] && !logged ==>
      Assess(decode, snapshot, p, nsAllowed, llm).Silent? || |o.history| >= |old(o.history)| + steps
    ensures logged ==>
      && |o.history| >= 2 && o.own == old(o.own) + [|o.history| - 1]
      && var a := Assess(decode, snapshot, p, nsAllowed, llm);
      && var prev := o.history[|o.history| - 2];
      && (started ==> a.Act? && Executors(a.decision.action).Some?)
      && var r := if started then exec(Executors(a.decision.action).value) else ExecResult("", None);
      && RecordFor(a, granted, p, r, now).Some?
      && AddsRecord(prev, o.history[|o.history| - 1], RecordFor(a, granted, p, r, now).value, maxAttempts)
  {
    hide Assess, GatesPass, KindSupports, ExecutorAccepts, Allowlist, SubjectKind, AddsRecord, ActionName, Appended, Retry.Lands, Retry.Live,
         RateLimit.ReserveOne;
    granted, started, logged := false, false, false;
    var a := Assess(decode, snapshot, p, nsAllowed, llm);
    ActIsExecutable(decode, snapshot, p, nsAllowed, llm);
    var rec;
    match a {
      case Silent => return;
      case SkipWith(reason, decider) => rec := SkipRecord(now, reason, decider);
      case Act(d) =>
        granted := limiter.Reserve(snapshot.spec.subject.ns, Cap(p), now);
        if !granted {
          rec := LimitedRecord(now, d);
        } else if DryRunOn(p) {
          rec := DryRunRecord(now, d);
        } else {
          var executor := Executors(d.action);
          if executor.None? {
            rec := MissingRecord(now, d);
          } else {
            started := true;
            rec := ExecRecord(now, d, exec(executor.value));
          }
        }
    }
    logged := AppendRecord(o, rec, maxAttempts, steps);
  }

  /** Counting one death in the object: the closure upsertObituary retries. */
  function CountDeath(lower: char -> char, d: Death): Obituary -> Option<Obituary> {
    (o: Obituary) => if o.status.lastEpisode == d.episode then None else Some(o.(status := Bump(lower, o.status, d)))
  }

  // ---------- upsertObituary, on values ----------

  /** What upsertObituary did: its results, whether it committed a death, and whether Create answered AlreadyExists. */
  datatype Upserted = Upserted(created: bool, bumped: bool, failed: bool, counted: bool, raced: bool)

  function Upsert(lower: char -> char, w: Retry.World<Obituary>, d: Death, steps: nat): (Retry.World<Obituary>, Upserted) {
    match Retry.Seen(w)
    case Broken => (Retry.Moved(w), Upserted(false, false, true, false, false))
    case NotFound => UpsertNew(lower, Retry.Moved(w), d)
    case Found(_, seen) =>
      if seen.status.lastEpisode == d.episode then (Retry.Moved(w), Upserted(false, false, false, false, false))
      else UpsertKnown(Retry.Attempt(Retry.Moved(w), CountDeath(lower, d), steps, None))
  }

  function UpsertNew(lower: char -> char, w: Retry.World<Obituary>, d: Death): (Retry.World<Obituary>, Upserted) {
    var (w', c) := Retry.Born(w, Newborn(lower, d));
    match c
    case Committed => UpsertFirst(lower, w', d)
    case Conflict => (w', Upserted(false, false, false, false, true))
    case Rejected => (w', Upserted(false, false, true, false, false))
  }

  function UpsertFirst(lower: char -> char, w: Retry.World<Obituary>, d: Death): (Retry.World<Obituary>, Upserted) {
    var (w', c) := Retry.Updated(w, 0, Newborn(lower, d).(status := FirstStatus(lower, d)));
    (w', Upserted(true, false, !c.Committed?, c.Committed?, false))
  }

  function UpsertKnown(r: (Retry.World<Obituary>, Retry.Retried<Obituary>)): (Retry.World<Obituary>, Upserted) {
    (r.0, Upserted(false, !r.1.GaveUp?, r.1.GaveUp?, r.1.Wrote?, false))
  }

  /** The first read comes back without fault with a version that carries the episode. */
  ghost predicate ReadsCounted(w: Retry.World<Obituary>, episode: string) {
    var a := Retry.Seen(w);
    a.Found? && a.obj.status.lastEpisode == episode
  }

  /** The first read finds nothing, and the creation then finds the object there. */
  ghost predicate LosesRace(w: Retry.World<Obituary>) {
    var w' := Retry.Moved(w);
    Retry.Seen(w).NotFound? && !Retry.FirstMove(w'.script).fails && Retry.Moved(w').history != []
  }

  /** Both results are false without an error exactly when the episode was read, or the race to create was lost. */
  lemma BothFalseIff(lower: char -> char, w: Retry.World<Obituary>, d: Death, steps: nat)
    ensures var u := Upsert(lower, w, d, steps).1;
      && (!u.created && !u.bumped && !u.failed <==> ReadsCounted(w, d.episode) || LosesRace(w))
      && (u.raced <==> LosesRace(w))
  {
  }

  /** Some version carries the episode. */
  ghost predicate Carried(h: seq<Obituary>, episode: string) { exists seen :: seen in h && seen.status.lastEpisode == episode }

  lemma KnownUpsert(lower: char -> char, w: Retry.World<Obituary>, d: Death, steps: nat)
    ensures var (w', r) := Retry.Attempt(w, CountDeath(lower, d), steps, None);
      && (r.Declined? ==> Carried(w'.history, d.episode))
      && (Retry.Live(w.script) && w.history != [] && r.GaveUp? ==> |w'.history| >= |w.history| + steps)
      && w.history <= w'.history
  {
    hide Bump;
    Retry.DeclinedIsSeen(w, CountDeath(lower, d), steps, None);
    Retry.BeatenByWrites(w, CountDeath(lower, d), steps, None);
    var (w', r) := Retry.Attempt(w, CountDeath(lower, d), steps, None);
    if r.Declined? { assert r.seen.status.lastEpisode == d.episode; }
  }

  /**
   Neither failed nor counted: the race to create was lost, or some version carries the episode.  With current reads
   and no faults an existing object's failure takes `steps` foreign writes, and only another creator can be the reason
   that a death stays uncounted without being there.
   */
  lemma UncountedUpsert(lower: char -> char, w: Retry.World<Obituary>, d: Death, steps: nat)
    ensures var (w', u) := Upsert(lower, w, d, steps);
      && (!u.failed && !u.counted && !u.raced ==> Carried(w'.history, d.episode))
      && (Retry.Live(w.script) && u.failed && !u.created ==> |w'.history| >= |w.history| + steps)
      && (Retry.Live(w.script) && !u.failed && !u.counted ==>
          w'.history != [] && (w.history != [] ==> Carried(w'.history, d.episode)))
  {
    hide Newborn, FirstStatus, Bump, Retry.Attempt;
    KnownUpsert(lower, Retry.Moved(w), d, steps);
    Retry.LiveMove(w.script);
    Retry.LiveMove(Retry.Moved(w).script);
    hide Retry.Live;
    if Retry.Seen(w).Found? && Retry.Seen(w).obj.status.lastEpisode == d.episode {
      assert Retry.Seen(w).obj in Retry.Moved(w).history;
    }
  }

  /** The branch for a missing object: the newborn, then its first status. */
  method CreateObituary(o: Retry.ApiObject<Obituary>, lower: char -> char, d: Death)
    returns (created: bool, failed: bool, counted: bool, raced: bool)
    modifies o
    ensures (o.Now(), Upserted(created, false, failed, counted, raced)) == UpsertNew(lower, old(o.Now()), d)
    ensures old(o.history) <= o.history
    ensures failed ==> !counted
    ensures created ==> |o.own| >= |old(o.own)| + 1 && o.own[|old(o.own)|] == 0 && 0 < |o.history| && BornOf(lower, o.history[0], d)
    ensures created && counted ==>
      && o.own == old(o.own) + [0, 1] && !failed
      && |o.history| == 2 && CountsDeath(lower, o.history[0], o.history[1], d)
    ensures created && !counted ==> o.own == old(o.own) + [0] && failed
    ensures !created ==> !counted && o.own == old(o.own) && (raced ==> !failed && o.history != [])
    ensures raced ==> !created
  {
    hide Newborn, FirstStatus, BornOf, CountsDeath, Retry.Moved, Retry.Born, Retry.Updated;
    DeathWritesAre(lower, Newborn(lower, d), d);
    created, failed, counted, raced := false, false, false, false;
    var w := o.Create(Newborn(lower, d));
    if !w.Committed? {
      return false, w.Rejected?, false, w.Conflict?;
    }
    created := true;
    w := o.Update(0, Newborn(lower, d).(status := FirstStatus(lower, d)));
    counted := w.Committed?;
    failed := !counted;
  }

  /** The branch for a known issue: the retried bump. */
  method BumpObituary(o: Retry.ApiObject<Obituary>, lower: char -> char, d: Death, steps: nat)
    returns (bumped: bool, failed: bool, counted: bool)
    modifies o
    ensures (o.Now(), Upserted(false, bumped, failed, counted, false)) ==
      UpsertKnown(Retry.Attempt(old(o.Now()), CountDeath(lower, d), steps, None))
    ensures old(o.history) <= o.history
    ensures bumped == !failed && (counted ==> bumped)
    ensures counted ==>
      && |o.history| >= 2 && o.own == old(o.own) + [|o.history| - 1]
      && o.history[|o.history| - 2].status.lastEpisode != d.episode
      && CountsDeath(lower, o.history[|o.history| - 2], o.history[|o.history| - 1], d)
    ensures !counted ==> o.own == old(o.own)
  {
    hide Retry.Attempt, Bump, CountsDeath;
    var r := Retry.RetryOnConflict(o, CountDeath(lower, d), steps);
    bumped := !r.GaveUp?;
    failed := r.GaveUp?;
    counted := r.Wrote?;
    if counted { DeathWritesAre(lower, r.was, d); }
  }

  /**
   upsertObituary.  `counted` and `raced` are ghosts of the code's own control flow: whether a death write of this
   call was committed, and whether Create answered AlreadyExists.  The call commits nothing, or a newborn alone, or a
   newborn directly followed by its first status, or one bump of the version directly before it.
   */
  method UpsertObituary(o: Retry.ApiObject<Obituary>, lower: char -> char, d: Death, steps: nat)
    returns (created: bool, bumped: bool, failed: bool, counted: bool, raced: bool)
    modifies o
    ensures (o.Now(), Upserted(created, bumped, failed, counted, raced)) == Upsert(lower, old(o.Now()), d, steps)
    ensures old(o.history) <= o.history
    ensures !(created && bumped) && (failed ==> !bumped && !counted) && (!created && !bumped ==> !counted)
    ensures created ==> |o.own| >= |old(o.own)| + 1 && o.own[|old(o.own)|] == 0 && 0 < |o.history| && BornOf(lower, o.history[0], d)
    ensures created && counted ==>
      && o.own == old(o.own) + [0, 1] && !failed
      && |o.history| == 2 && CountsDeath(lower, o.history[0], o.history[1], d)
    ensures created && !counted ==> o.own == old(o.own) + [0] && failed
    ensures !created && counted ==>
      && bumped && |o.history| >= 2 && o.own == old(o.own) + [|o.history| - 1]
      && o.history[|o.history| - 2].status.lastEpisode != d.episode
      && CountsDeath(lower, o.history[|o.history| - 2], o.history[|o.history| - 1], d)
    ensures !created && !counted ==> o.own == old(o.own)
    // neither failed nor counted: the race to create was lost, or some version carries the episode
    ensures !failed && !counted && !raced ==> Carried(o.history, d.episode)
    ensures raced ==> !created && !bumped && !failed && o.history != []
    // with current reads and no faults: an existing object's failure means `steps` foreign writes, and a death
    // that stays uncounted without failure is already there, or another writer created the object first
    ensures old(Retry.Live(o.script)) && failed && !created ==> |o.history| >= |old(o.history)| + steps
    ensures old(Retry.Live(o.script)) && !failed && !counted ==>
      o.history != [] && (old(o.history) != [] ==> Carried(o.history, d.episode))
  {
    UncountedUpsert(lower, o.Now(), d, steps);
    hide BornOf, CountsDeath, Newborn, FirstStatus, Bump, Carried, Retry.Attempt, Retry.Live, Retry.Seen, Retry.Moved, UpsertNew, UpsertKnown;
    created, bumped, failed, counted, raced := false, false, false, false, false;
    var existing := o.Get();
    match existing
    case Broken =>
      failed := true;
    case NotFound =>
      created, failed, counted, raced := CreateObituary(o, lower, d);
    case Found(_, seen) =>
      if seen.status.lastEpisode == d.episode { return; }
      bumped, failed, counted := BumpObituary(o, lower, d, steps);
  }
}
