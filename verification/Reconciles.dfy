/**
 Any number of reconciles running concurrently against the API server and one shared heal engine
 (internal/controller/koroner.go:128-200, internal/controller/pod_controller.go:93-144,
 internal/selfheal/engine.go:85-237).

 The store keeps every committed version of every obituary, tagged with the write that produced
 it.  A reconcile is a thread with a program counter; one step is one API call, one limiter
 call, or one piece of local work.  Reads answer any version committed so far, an old absence, or an error.
 A step that is not possible leaves the state alone, so every sequence of steps is a run.
 */
module Reconciles {
  import opened Common
  import opened Decider
  import opened Obituaries
  import opened Engine
  import Naming
  import RateLimit

  datatype Key = Key(ns: string, name: string)

  /** A decision to act: the version it was taken on, under which policy and selector answer, and what was decided. */
  datatype Heal = Heal(key: Key, version: nat, obit: Obituary, policy: HealPolicy, nsAllowed: bool, decision: Decision)

  datatype PC =
    | Lookup                                                       // pod_controller.go:100
    | UpsertGet                                                    // koroner.go:133
    | Create                                                       // koroner.go:153
    | WriteFirst                                                   // koroner.go:166
    | RetryGet(attempt: nat)                                       // koroner.go:178
    | RetryUpdate(attempt: nat, version: nat, seen: Obituary)      // koroner.go:197
    | HealLookup                                                   // pod_controller.go:138
    | Reserving(heal: Heal)                                        // engine.go:140
    | Granted(heal: Heal, grant: nat)                              // engine.go:151
    | Executing(heal: Heal, grant: nat, changed: bool)             // engine.go:175
    | TrailGet(rec: HealRecord, attempt: nat)                      // engine.go:223
    | TrailUpdate(rec: HealRecord, attempt: nat, version: nat, seen: Obituary) // engine.go:232
    | Finished

  /** What upsertObituary returned; `raced` is the guard that Create answered AlreadyExists. */
  datatype UpsertResult = Pending | Returned(created: bool, bumped: bool, failed: bool, raced: bool)

  /** A reconcile; `wrote` and `logged` are the versions it committed, `grant` the budget it used, `tried` its record. */
  datatype Thread = Thread(d: Death, pc: PC, upsert: UpsertResult, wrote: Option<nat>, grant: Option<nat>,
                           tried: Option<HealRecord>, logged: Option<nat>)

  datatype EventKind = DryRunOutcome | MissingExecutor | ExecutorStart

  /** What became of a grant, and when. */
  datatype HealEvent = HealEvent(kind: EventKind, grant: nat, at: int, heal: Heal)

  /** Who took a grant, and the event it led to. */
  datatype Receipt = Receipt(holder: nat, event: Option<nat>)

  datatype State = State(
    store: map<Key, seq<Version>>, threads: map<nat, Thread>, ledger: RateLimit.Ledger,
    receipts: seq<Receipt>, events: seq<HealEvent>,
    cluster: seq<nat>)  // changes made to workloads and pods, by the event of the executor; each makes at most one

  datatype Params = Params(
    hash: string -> string, lower: char -> char, decode: Decoder, retries: nat, maxAttempts: int, window: int,
    keys: set<string>)  // the issue keys that occur

  datatype View = At(version: nat) | Absent | Unavailable

  datatype Step =
    | Spawn(tid: nat, d: Death)
    | Touch(key: Key)
    | Tick(wait: nat)
    | Get(tid: nat, view: View)
    | Put(tid: nat, fault: bool)
    | Judge(tid: nat, view: View, policy: HealPolicy, nsAllowed: bool, llm: Option<Reply>)
    | Reserve(tid: nat)
    | Settle(tid: nat)
    | Mutate(tid: nat)
    | Return(tid: nat, result: ExecResult)

  function Op(pm: Params): Operator { Operator(pm.lower, pm.maxAttempts) }

  function StoreKey(pm: Params, d: Death): Key {
    Key(d.subject.ns, Naming.ObituaryName(pm.hash, pm.lower, d.subject.name, KeyOf(pm.lower, d)))
  }

  predicate DeathOk(pm: Params, d: Death) { d.episode != "" && KeyOf(pm.lower, d) in pm.keys }

  // ---------- one step ----------

  predicate Visible(store: map<Key, seq<Version>>, k: Key, view: View) {
    view.At? ==> k in store && view.version < |store[k]|
  }

  function Ended(t: Thread): Thread { t.(pc := Finished) }

  function UpsertFailed(t: Thread, created: bool): Thread { t.(pc := Finished, upsert := Returned(created, false, true, false)) }

  function UpsertDone(t: Thread, created: bool, bumped: bool): Thread {
    t.(pc := HealLookup, upsert := Returned(created, bumped, false, false))
  }

  /** Losing the race to create: no error, neither result. */
  function UpsertRaced(t: Thread): Thread { t.(pc := HealLookup, upsert := Returned(false, false, false, true)) }

  /** The thread starts to append a record. */
  function Trailing(t: Thread, rec: HealRecord): Thread { t.(pc := TrailGet(rec, 0), tried := Some(rec)) }

  /** A thread's own reaction to the answer of a read. */
  function AfterGet(pm: Params, store: map<Key, seq<Version>>, t: Thread, view: View): Thread
    requires Visible(store, StoreKey(pm, t.d), view)
  {
    var seen := if view.At? then Some(store[StoreKey(pm, t.d)][view.version].obit) else None;
    match t.pc
    case Lookup =>
      if view.Unavailable? || (seen.Some? && seen.value.status.lastEpisode == t.d.episode) then Ended(t) else t.(pc := UpsertGet)
    case UpsertGet =>
      if view.Unavailable? then UpsertFailed(t, false)
      else if view.Absent? then t.(pc := Create)
      else if seen.value.status.lastEpisode == t.d.episode then UpsertDone(t, false, false)
      else t.(pc := RetryGet(0))
    case RetryGet(attempt) =>
      if seen.None? then UpsertFailed(t, false)
      else if seen.value.status.lastEpisode == t.d.episode then UpsertDone(t, false, true)
      else t.(pc := RetryUpdate(attempt, view.version, seen.value))
    case TrailGet(rec, attempt) =>
      if seen.None? then Ended(t) else t.(pc := TrailUpdate(rec, attempt, view.version, seen.value))
    case _ => t
  }

  /** Appends a version if `version` is the current one. */
  function Commit(store: map<Key, seq<Version>>, k: Key, version: nat, v: Version): map<Key, seq<Version>> {
    if k in store && version + 1 == |store[k]| then store[k := store[k] + [v]] else store
  }

  predicate Current(store: map<Key, seq<Version>>, k: Key, version: nat) { k in store && version + 1 == |store[k]| }

  /** The store after a write attempt of thread `tid`. */
  function StoreAfterPut(pm: Params, store: map<Key, seq<Version>>, tid: nat, t: Thread, fault: bool): map<Key, seq<Version>> {
    var k := StoreKey(pm, t.d);
    if fault then store
    else
      match t.pc
      case Create => if k in store then store else store[k := [Version(Newborn(pm.lower, t.d), Created(tid, t.d))]]
      case WriteFirst =>
        Commit(store, k, 0, Version(Newborn(pm.lower, t.d).(status := FirstStatus(pm.lower, t.d)), DeathWrite(tid, t.d)))
      case RetryUpdate(_, version, seen) =>
        Commit(store, k, version, Version(seen.(status := Bump(pm.lower, seen.status, t.d)), DeathWrite(tid, t.d)))
      case TrailUpdate(rec, _, version, seen) =>
        Commit(store, k, version, Version(seen.(status := AppendHeal(seen.status, rec, pm.maxAttempts)), HealWrite(tid, rec)))
      case _ => store
  }

  /** The thread after its write attempt against `store`. */
  function ThreadAfterPut(pm: Params, store: map<Key, seq<Version>>, t: Thread, fault: bool): Thread {
    var k := StoreKey(pm, t.d);
    match t.pc
    case Create =>
      if fault then UpsertFailed(t, false)
      else if k in store then UpsertRaced(t)
      else t.(pc := WriteFirst)
    case WriteFirst =>
      if fault || !Current(store, k, 0) then UpsertFailed(t, true)
      else UpsertDone(t, true, false).(wrote := Some(1))
    case RetryUpdate(attempt, version, _) =>
      if fault then UpsertFailed(t, false)
      else if Current(store, k, version) then UpsertDone(t, false, true).(wrote := Some(version + 1))
      else if attempt + 1 < pm.retries then t.(pc := RetryGet(attempt + 1))
      else UpsertFailed(t, false)
    case TrailUpdate(rec, attempt, version, _) =>
      if !fault && Current(store, k, version) then Ended(t).(logged := Some(version + 1))
      else if !fault && attempt + 1 < pm.retries then t.(pc := TrailGet(rec, attempt + 1))
      else Ended(t)
    case _ => t
  }

  /** tryHeal up to the limiter: the re-read, the policy of the moment, the gates and the decider. */
  function AfterJudge(pm: Params, s: State, t: Thread, view: View, policy: HealPolicy, nsAllowed: bool, llm: Option<Reply>): Thread
    requires Visible(s.store, StoreKey(pm, t.d), view)
  {
    if !view.At? then Ended(t)
    else
      var k := StoreKey(pm, t.d);
      var obit := s.store[k][view.version].obit;
      match Assess(pm.decode, obit, policy, nsAllowed, llm)
      case Silent => Ended(t)
      case SkipWith(reason, decider) => Trailing(t, SkipRecord(s.ledger.clock, reason, decider))
      case Act(d) => t.(pc := Reserving(Heal(k, view.version, obit, policy, nsAllowed, d)))
  }

  function HealNs(h: Heal): string { h.obit.spec.subject.ns }

  function AfterReserve(pm: Params, s: State, tid: nat): State
    requires tid in s.threads && s.threads[tid].pc.Reserving?
  {
    var t := s.threads[tid];
    var h := t.pc.heal;
    var (ledger, ok) := RateLimit.Call(s.ledger, HealNs(h), pm.window, Cap(h.policy));
    if ok then
      var g := |s.ledger.log|;
      s.(ledger := ledger, receipts := s.receipts + [Receipt(tid, None)],
         threads := s.threads[tid := t.(pc := Granted(h, g), grant := Some(g))])
    else
      s.(ledger := ledger, threads := s.threads[tid := Trailing(t, LimitedRecord(s.ledger.clock, h.decision))])
  }

  function KindAfterGrant(h: Heal): EventKind {
    if DryRunOn(h.policy) then DryRunOutcome
    else if Executors(h.decision.action).None? then MissingExecutor
    else ExecutorStart
  }

  function AfterAct(s: State, tid: nat): State
    requires tid in s.threads && s.threads[tid].pc.Granted? && s.threads[tid].pc.grant < |s.receipts|
  {
    var t := s.threads[tid];
    var h, g := t.pc.heal, t.pc.grant;
    var kind := KindAfterGrant(h);
    var t' := match kind
      case DryRunOutcome => Trailing(t, DryRunRecord(s.ledger.clock, h.decision))
      case MissingExecutor => Trailing(t, MissingRecord(s.ledger.clock, h.decision))
      case ExecutorStart => t.(pc := Executing(h, g, false));
    s.(events := s.events + [HealEvent(kind, g, s.ledger.clock, h)],
       receipts := s.receipts[g := Receipt(tid, Some(|s.events|))],
       threads := s.threads[tid := t'])
  }

  predicate Enabled(pm: Params, s: State, st: Step) {
    match st
    case Spawn(tid, d) => tid !in s.threads && DeathOk(pm, d)
    case Touch(k) => k in s.store && |s.store[k]| > 0
    case Tick(_) => true
    case Get(tid, view) => tid in s.threads && Visible(s.store, StoreKey(pm, s.threads[tid].d), view)
    case Put(tid, _) => tid in s.threads
    case Judge(tid, view, _, _, _) =>
      tid in s.threads && s.threads[tid].pc.HealLookup? && Visible(s.store, StoreKey(pm, s.threads[tid].d), view)
    case Reserve(tid) => tid in s.threads && s.threads[tid].pc.Reserving?
    case Settle(tid) => tid in s.threads && s.threads[tid].pc.Granted? && s.threads[tid].pc.grant < |s.receipts|
    case Mutate(tid) =>
      && tid in s.threads && s.threads[tid].pc.Executing? && !s.threads[tid].pc.changed
      && s.threads[tid].pc.grant < |s.receipts| && s.receipts[s.threads[tid].pc.grant].event.Some?
    case Return(tid, _) => tid in s.threads && s.threads[tid].pc.Executing?
  }

  function Next(pm: Params, s: State, st: Step): State {
    if !Enabled(pm, s, st) then s
    else
      match st
      case Spawn(tid, d) => s.(threads := s.threads[tid := Thread(d, Lookup, Pending, None, None, None, None)])
      case Touch(k) => s.(store := s.store[k := s.store[k] + [Version(s.store[k][|s.store[k]| - 1].obit, ForeignWrite)]])
      case Tick(wait) => s.(ledger := s.ledger.(clock := s.ledger.clock + wait))
      case Get(tid, view) => s.(threads := s.threads[tid := AfterGet(pm, s.store, s.threads[tid], view)])
      case Put(tid, fault) =>
        s.(store := StoreAfterPut(pm, s.store, tid, s.threads[tid], fault),
           threads := s.threads[tid := ThreadAfterPut(pm, s.store, s.threads[tid], fault)])
      case Judge(tid, view, policy, nsAllowed, llm) =>
        s.(threads := s.threads[tid := AfterJudge(pm, s, s.threads[tid], view, policy, nsAllowed, llm)])
      case Reserve(tid) => AfterReserve(pm, s, tid)
      case Settle(tid) => AfterAct(s, tid)
      case Mutate(tid) =>
        var t := s.threads[tid];
        s.(cluster := s.cluster + [s.receipts[t.pc.grant].event.value],
           threads := s.threads[tid := t.(pc := t.pc.(changed := true))])
      case Return(tid, result) =>
        var t := s.threads[tid];
        s.(threads := s.threads[tid := Trailing(t, ExecRecord(s.ledger.clock, t.pc.heal.decision, result))])
  }

  function Init(clock: int): State { State(map[], map[], RateLimit.EmptyLedger(clock), [], [], []) }

  function Run(pm: Params, clock: int, steps: seq<Step>): State {
    if |steps| == 0 then Init(clock) else Next(pm, Run(pm, clock, steps[..|steps| - 1]), steps[|steps| - 1])
  }

  // ---------- invariant: linear histories and honest threads ----------

  /** Every write to an object belongs to it. */
  ghost predicate Keyed(pm: Params, k: Key, h: seq<Version>) {
    forall i :: 0 <= i < |h| ==>
      match h[i].write
      case Created(_, d) => StoreKey(pm, d) == k && DeathOk(pm, d)
      case DeathWrite(_, d) => StoreKey(pm, d) == k && DeathOk(pm, d)
      case _ => true
  }

  ghost predicate HistoryOk(pm: Params, k: Key, h: seq<Version>) { Linear(Op(pm), h) && Keyed(pm, k, h) }

  ghost predicate StoreOk(pm: Params, store: map<Key, seq<Version>>) {
    forall k :: k in store ==> HistoryOk(pm, k, store[k])
  }

  predicate Holds(store: map<Key, seq<Version>>, k: Key, version: nat, obit: Obituary) {
    k in store && version < |store[k]| && store[k][version].obit == obit
  }

  /** A heal was decided on a committed version, past every gate, for an action its executor accepts. */
  ghost predicate HealOk(store: map<Key, seq<Version>>, h: Heal) {
    && Holds(store, h.key, h.version, h.obit)
    && GatesPass(h.obit, h.policy, h.nsAllowed)
    && Executable(h.decision.action, SubjectKind(h.obit), Allowlist(h.policy))
  }

  ghost predicate ThreadOk(pm: Params, store: map<Key, seq<Version>>, t: Thread) {
    && DeathOk(pm, t.d)
    && match t.pc
       case WriteFirst => Holds(store, StoreKey(pm, t.d), 0, Newborn(pm.lower, t.d))
       case RetryUpdate(_, version, seen) =>
         Holds(store, StoreKey(pm, t.d), version, seen) && seen.status.lastEpisode != t.d.episode
       case TrailUpdate(_, _, version, seen) => Holds(store, StoreKey(pm, t.d), version, seen)
       case Reserving(h) => HealOk(store, h) && h.key == StoreKey(pm, t.d)
       case Granted(h, _) => HealOk(store, h) && h.key == StoreKey(pm, t.d)
       case Executing(h, _, _) => HealOk(store, h) && h.key == StoreKey(pm, t.d)
       case _ => true
  }

  ghost predicate ThreadsOk(pm: Params, s: State) {
    forall tid :: tid in s.threads ==> ThreadOk(pm, s.store, s.threads[tid])
  }

  ghost predicate Inv(pm: Params, s: State) { StoreOk(pm, s.store) && ThreadsOk(pm, s) }

  /** Histories only grow. */
  ghost predicate Grows(a: map<Key, seq<Version>>, b: map<Key, seq<Version>>) {
    forall k :: k in a ==> k in b && a[k] <= b[k]
  }

  lemma HoldsGrows(a: map<Key, seq<Version>>, b: map<Key, seq<Version>>, k: Key, version: nat, obit: Obituary)
    requires Grows(a, b) && Holds(a, k, version, obit)
    ensures Holds(b, k, version, obit)
  {
    assert a[k] <= b[k];
  }

  lemma ThreadOkGrows(pm: Params, a: map<Key, seq<Version>>, b: map<Key, seq<Version>>, t: Thread)
    requires Grows(a, b) && ThreadOk(pm, a, t)
    ensures ThreadOk(pm, b, t)
  {
    var k := StoreKey(pm, t.d);
    match t.pc
    case WriteFirst => HoldsGrows(a, b, k, 0, Newborn(pm.lower, t.d));
    case RetryUpdate(_, version, seen) => HoldsGrows(a, b, k, version, seen);
    case TrailUpdate(_, _, version, seen) => HoldsGrows(a, b, k, version, seen);
    case Reserving(h) => HoldsGrows(a, b, h.key, h.version, h.obit);
    case Granted(h, _) => HoldsGrows(a, b, h.key, h.version, h.obit);
    case Executing(h, _, _) => HoldsGrows(a, b, h.key, h.version, h.obit);
    case _ =>
  }

  lemma HistorySnoc(pm: Params, k: Key, h: seq<Version>, v: Version)
    requires HistoryOk(pm, k, h) && Follows(Op(pm), h[|h| - 1].obit, v)
    requires v.write.DeathWrite? ==> StoreKey(pm, v.write.d) == k && DeathOk(pm, v.write.d)
    ensures HistoryOk(pm, k, h + [v])
  {
    LinearSnoc(Op(pm), h, v);
  }

  lemma PutFollows(pm: Params, store: map<Key, seq<Version>>, tid: nat, t: Thread)
    requires StoreOk(pm, store) && ThreadOk(pm, store, t)
    ensures var k, store' := StoreKey(pm, t.d), StoreAfterPut(pm, store, tid, t, false);
      k in store && store' != store ==>
        && |store'[k]| == |store[k]| + 1 && store'[k][..|store[k]|] == store[k] && store' == store[k := store'[k]]
        && Follows(Op(pm), store[k][|store[k]| - 1].obit, store'[k][|store[k]|])
        && var w := store'[k][|store[k]|].write;
           w == DeathWrite(tid, t.d) || (t.pc.TrailUpdate? && w == HealWrite(tid, t.pc.rec))
  {
    hide FindingsOf, KeyOf, StoreKey;
    if t.pc.WriteFirst? { FirstStatusIsBump(pm.lower, t.d); }
  }

  lemma NewbornHistory(pm: Params, tid: nat, d: Death)
    requires DeathOk(pm, d)
    ensures HistoryOk(pm, StoreKey(pm, d), [Version(Newborn(pm.lower, d), Created(tid, d))])
  {
  }

  /** Extending one history, or starting a new one, keeps the store well-formed. */
  lemma StoreUpdate(pm: Params, store: map<Key, seq<Version>>, k: Key, h: seq<Version>)
    requires StoreOk(pm, store) && HistoryOk(pm, k, h) && (k in store ==> store[k] <= h)
    ensures StoreOk(pm, store[k := h]) && Grows(store, store[k := h])
  {
    hide HistoryOk;
  }

  lemma PutCreates(pm: Params, store: map<Key, seq<Version>>, tid: nat, t: Thread, fault: bool)
    ensures var k, store' := StoreKey(pm, t.d), StoreAfterPut(pm, store, tid, t, fault);
      && (fault ==> store' == store)
      && (k !in store && store' != store ==>
          store' == store[k := [Version(Newborn(pm.lower, t.d), Created(tid, t.d))]])
  {
    hide StoreKey, Newborn, FirstStatus, Bump, AppendHeal;
  }

  lemma PutKeepsStore(pm: Params, store: map<Key, seq<Version>>, tid: nat, t: Thread, fault: bool)
    requires StoreOk(pm, store) && ThreadOk(pm, store, t)
    ensures var store' := StoreAfterPut(pm, store, tid, t, fault);
      StoreOk(pm, store') && Grows(store, store')
  {
    assert DeathOk(pm, t.d);
    hide HistoryOk, Follows, StoreAfterPut, StoreKey, ThreadOk, DeathOk, Newborn;
    var k, store' := StoreKey(pm, t.d), StoreAfterPut(pm, store, tid, t, fault);
    PutCreates(pm, store, tid, t, fault);
    if store' != store {
      if k in store {
        PutFollows(pm, store, tid, t);
        assert store'[k] == store[k] + [store'[k][|store[k]|]];
        HistorySnoc(pm, k, store[k], store'[k][|store[k]|]);
      } else {
        NewbornHistory(pm, tid, t.d);
      }
      StoreUpdate(pm, store, k, store'[k]);
    }
  }

  /** After a write attempt a thread carries no snapshot, unless nothing happened or it just created the object. */
  lemma PutDropsSnapshots(pm: Params, store: map<Key, seq<Version>>, t: Thread, fault: bool)
    ensures var t' := ThreadAfterPut(pm, store, t, fault);
      && t'.d == t.d
      && (t' == t || (t.pc.Create? && t'.pc.WriteFirst? && !fault && StoreKey(pm, t.d) !in store)
          || t'.pc.HealLookup? || t'.pc.RetryGet? || t'.pc.TrailGet? || t'.pc.Finished?)
  {
  }

  lemma PutKeepsThread(pm: Params, store: map<Key, seq<Version>>, tid: nat, t: Thread, fault: bool)
    requires StoreOk(pm, store) && ThreadOk(pm, store, t)
    ensures ThreadOk(pm, StoreAfterPut(pm, store, tid, t, fault), ThreadAfterPut(pm, store, t, fault))
  {
    PutDropsSnapshots(pm, store, t, fault);
    PutKeepsStore(pm, store, tid, t, fault);
    if ThreadAfterPut(pm, store, t, fault) == t {
      ThreadOkGrows(pm, store, StoreAfterPut(pm, store, tid, t, fault), t);
    }
  }

  lemma TouchKeepsStore(pm: Params, store: map<Key, seq<Version>>, k: Key)
    requires StoreOk(pm, store) && k in store
    ensures |store[k]| > 0
    ensures var store' := store[k := store[k] + [Version(store[k][|store[k]| - 1].obit, ForeignWrite)]];
      StoreOk(pm, store') && Grows(store, store')
  {
    var v := Version(store[k][|store[k]| - 1].obit, ForeignWrite);
    HistorySnoc(pm, k, store[k], v);
    StoreUpdate(pm, store, k, store[k] + [v]);
  }

  lemma GetKeepsThread(pm: Params, store: map<Key, seq<Version>>, t: Thread, view: View)
    requires ThreadOk(pm, store, t) && Visible(store, StoreKey(pm, t.d), view)
    ensures ThreadOk(pm, store, AfterGet(pm, store, t, view))
  {
  }

  lemma JudgeKeepsThread(pm: Params, s: State, t: Thread, view: View, policy: HealPolicy, nsAllowed: bool, llm: Option<Reply>)
    requires ThreadOk(pm, s.store, t) && Visible(s.store, StoreKey(pm, t.d), view)
    ensures ThreadOk(pm, s.store, AfterJudge(pm, s, t, view, policy, nsAllowed, llm))
  {
    if view.At? {
      ActIsExecutable(pm.decode, s.store[StoreKey(pm, t.d)][view.version].obit, policy, nsAllowed, llm);
    }
  }

  /** The thread a step advances, if any. */
  function Mover(st: Step): Option<nat> {
    match st
    case Touch(_) => None
    case Tick(_) => None
    case Spawn(tid, _) => Some(tid)
    case Get(tid, _) => Some(tid)
    case Put(tid, _) => Some(tid)
    case Judge(tid, _, _, _, _) => Some(tid)
    case Reserve(tid) => Some(tid)
    case Settle(tid) => Some(tid)
    case Mutate(tid) => Some(tid)
    case Return(tid, _) => Some(tid)
  }

  predicate InHeal(t: Thread) { t.pc.Reserving? || t.pc.Granted? || t.pc.Executing? }

  /** What a read or a judgement never changes of a thread, and that a read never enters the heal states. */
  lemma GetFields(pm: Params, store: map<Key, seq<Version>>, t: Thread, view: View)
    requires Visible(store, StoreKey(pm, t.d), view)
    ensures var t' := AfterGet(pm, store, t, view);
      && t'.d == t.d && t'.wrote == t.wrote && t'.logged == t.logged && t'.grant == t.grant && t'.tried == t.tried
      && (t' == t || (!InHeal(t) && !InHeal(t')))
  {
  }

  lemma PutFields(pm: Params, store: map<Key, seq<Version>>, t: Thread, fault: bool)
    ensures var t' := ThreadAfterPut(pm, store, t, fault);
      && t'.d == t.d && t'.grant == t.grant && t'.tried == t.tried && (t' == t || (!InHeal(t) && !InHeal(t')))
  {
  }

  lemma JudgeFields(pm: Params, s: State, t: Thread, view: View, policy: HealPolicy, nsAllowed: bool, llm: Option<Reply>)
    requires Visible(s.store, StoreKey(pm, t.d), view)
    ensures var t' := AfterJudge(pm, s, t, view, policy, nsAllowed, llm);
      && t'.d == t.d && t'.upsert == t.upsert && t'.wrote == t.wrote && t'.logged == t.logged && t'.grant == t.grant
      && !t'.pc.Granted? && !t'.pc.Executing? && (t'.pc.Reserving? ==> t'.pc.heal.policy == policy)
  {
    hide Assess;
  }

  /** A step leaves every other thread exactly as it was. */
  lemma OthersUntouched(pm: Params, s: State, st: Step, tid: nat)
    requires Mover(st) != Some(tid)
    ensures tid in Next(pm, s, st).threads <==> tid in s.threads
    ensures tid in s.threads ==> Next(pm, s, st).threads[tid] == s.threads[tid]
  {
  }

  lemma StepKeepsStore(pm: Params, s: State, st: Step)
    requires Inv(pm, s)
    ensures StoreOk(pm, Next(pm, s, st).store) && Grows(s.store, Next(pm, s, st).store)
  {
    hide HistoryOk, AfterGet, AfterJudge, StoreAfterPut, ThreadAfterPut;
    if Enabled(pm, s, st) && st.Touch? {
      TouchKeepsStore(pm, s.store, st.key);
    } else if Enabled(pm, s, st) && st.Put? {
      PutKeepsStore(pm, s.store, st.tid, s.threads[st.tid], st.fault);
    } else {
      assert Next(pm, s, st).store == s.store;
    }
  }

  /** A reservation leaves its heal as it was, granted or not. */
  lemma ReserveOutcome(pm: Params, s: State, tid: nat)
    requires tid in s.threads && s.threads[tid].pc.Reserving?
    ensures var t, t' := s.threads[tid], AfterReserve(pm, s, tid).threads[tid];
      t'.d == t.d && (t'.pc.TrailGet? || (t'.pc.Granted? && t'.pc.heal == t.pc.heal))
  {
    hide RateLimit.Call;
  }

  lemma ReserveKeepsMover(pm: Params, s: State, tid: nat)
    requires Enabled(pm, s, Reserve(tid)) && ThreadOk(pm, s.store, s.threads[tid])
    ensures ThreadOk(pm, s.store, AfterReserve(pm, s, tid).threads[tid])
  {
    hide AfterReserve, HealOk, StoreKey, Naming.ObituaryName;
    ReserveOutcome(pm, s, tid);
  }

  lemma ActKeepsMover(pm: Params, s: State, tid: nat)
    requires Enabled(pm, s, Settle(tid)) && ThreadOk(pm, s.store, s.threads[tid])
    ensures ThreadOk(pm, s.store, AfterAct(s, tid).threads[tid])
  {
  }

  lemma StepKeepsMover(pm: Params, s: State, st: Step)
    requires StoreOk(pm, s.store) && Enabled(pm, s, st) && Mover(st).Some?
    requires Mover(st).value in s.threads ==> ThreadOk(pm, s.store, s.threads[Mover(st).value])
    ensures var s' := Next(pm, s, st);
      Mover(st).value in s'.threads && ThreadOk(pm, s'.store, s'.threads[Mover(st).value])
  {
    match st
    case Spawn(_, _) =>
    case Get(tid, view) => GetKeepsThread(pm, s.store, s.threads[tid], view);
    case Put(tid, fault) => PutKeepsThread(pm, s.store, tid, s.threads[tid], fault);
    case Judge(tid, view, policy, nsAllowed, llm) => JudgeKeepsThread(pm, s, s.threads[tid], view, policy, nsAllowed, llm);
    case Reserve(tid) => ReserveKeepsMover(pm, s, tid);
    case Settle(tid) => ActKeepsMover(pm, s, tid);
    case Mutate(_) =>
    case Return(_, _) =>
  }

  lemma StepKeepsInv(pm: Params, s: State, st: Step)
    requires Inv(pm, s)
    ensures Inv(pm, Next(pm, s, st))
  {
    var s' := Next(pm, s, st);
    StepKeepsStore(pm, s, st);
    forall tid | tid in s'.threads
      ensures ThreadOk(pm, s'.store, s'.threads[tid])
    {
      if Enabled(pm, s, st) && Mover(st) == Some(tid) {
        StepKeepsMover(pm, s, st);
      } else if Enabled(pm, s, st) {
        OthersUntouched(pm, s, st, tid);
        ThreadOkGrows(pm, s.store, s'.store, s.threads[tid]);
      }
    }
  }

  /** Every interleaving keeps all histories linear. */
  lemma {:induction false} RunKeepsInv(pm: Params, clock: int, steps: seq<Step>)
    ensures Inv(pm, Run(pm, clock, steps))
  {
    if |steps| > 0 {
      RunKeepsInv(pm, clock, steps[..|steps| - 1]);
      StepKeepsInv(pm, Run(pm, clock, steps[..|steps| - 1]), steps[|steps| - 1]);
    }
  }
}
