/**
 The interleaved reconciles refine the sequential methods.  Whatever the other steps of a run are, a reconcile's
 upsert returns, and its append does, exactly what the method returns on one object under the script those other
 steps amount to.
 */
module Refinement {
  import opened Common
  import opened Obituaries
  import opened Engine
  import opened Reconciles
  import opened Conservation
  import RateLimit
  import Retry

  // ---------- one object of the store as the methods see it ----------

  function Obits(h: seq<Version>): seq<Obituary> { seq(|h|, i requires 0 <= i < |h| => h[i].obit) }

  function ObjectAt(store: map<Key, seq<Version>>, k: Key): seq<Version> { if k in store then store[k] else [] }

  type World = Retry.World<Obituary>

  /** What is left of a call: the upsert's results, or whether the record was appended. */
  datatype Outcome = Upserts(u: Upserted) | Appends(done: bool)

  /** The thread is inside upsertObituary or appendRecord, within its attempts. */
  predicate InCall(pm: Params, t: Thread) {
    match t.pc
    case UpsertGet => true
    case Create => true
    case WriteFirst => true
    case RetryGet(attempt) => attempt < pm.retries
    case RetryUpdate(attempt, _, seen) => attempt < pm.retries && seen.status.lastEpisode != t.d.episode
    case TrailGet(_, attempt) => attempt < pm.retries
    case TrailUpdate(_, attempt, _, _) => attempt < pm.retries
    case _ => false
  }

  predicate Appending(t: Thread) { t.pc.TrailGet? || t.pc.TrailUpdate? }

  /** The method's own continuation from the thread's program counter. */
  function Ahead(pm: Params, t: Thread, w: World): Outcome
    requires InCall(pm, t)
  {
    match t.pc
    case UpsertGet => Upserts(Upsert(pm.lower, w, t.d, pm.retries).1)
    case Create => Upserts(UpsertNew(pm.lower, w, t.d).1)
    case WriteFirst => Upserts(UpsertFirst(pm.lower, w, t.d).1)
    case RetryGet(attempt) => Upserts(UpsertKnown(Retry.Attempt(w, CountDeath(pm.lower, t.d), pm.retries - attempt, None)).1)
    case RetryUpdate(attempt, version, seen) =>
      var next := CountDeath(pm.lower, t.d)(seen).value;
      Upserts(UpsertKnown(Retry.AttemptWrite(w, CountDeath(pm.lower, t.d), pm.retries - attempt - 1, version, seen, next)).1)
    case TrailGet(rec, attempt) => Appends(Appended(w, rec, pm.maxAttempts, pm.retries - attempt).1)
    case TrailUpdate(rec, attempt, version, seen) =>
      var next := AddRecord(rec, pm.maxAttempts)(seen).value;
      Appends(Retry.AttemptWrite(w, AddRecord(rec, pm.maxAttempts), pm.retries - attempt - 1, version, seen, next).1.Wrote?)
  }

  /** What the thread itself came out with. */
  function Reported(t: Thread, appending: bool): Outcome {
    if appending then Appends(t.logged.Some?)
    else
      match t.upsert
      case Pending => Upserts(Upserted(false, false, false, false, false))
      case Returned(created, bumped, failed, raced) => Upserts(Upserted(created, bumped, failed, t.wrote.Some?, raced))
  }

  /** The call is over. */
  predicate Over(t: Thread, appending: bool) { if appending then t.pc.Finished? else t.upsert.Returned? }

  /** The same outcome, still ahead or already reported. */
  predicate Comes(pm: Params, t: Thread, w: World, appending: bool, o: Outcome) {
    if InCall(pm, t) then Appending(t) == appending && Ahead(pm, t, w) == o
    else Over(t, appending) && Reported(t, appending) == o
  }

  // ---------- one step of the thread is one call of the method ----------

  /** The attempt's memory of an earlier failure does not change whether it writes or gives up. */
  lemma {:induction false} LastIsIrrelevant(w: World, mutate: Obituary -> Option<Obituary>, steps: nat,
                                            a: Option<(Obituary, Obituary)>, b: Option<(Obituary, Obituary)>)
    ensures var x, y := Retry.Attempt(w, mutate, steps, a), Retry.Attempt(w, mutate, steps, b);
      x.0 == y.0 && (x.1 == y.1 || (x.1.GaveUp? && y.1.GaveUp?))
  {
  }

  /** The move answers a read with this view of the object. */
  predicate Answers(w: World, view: View) {
    match view
    case Unavailable => Retry.Seen(w).Broken?
    case Absent => Retry.Seen(w).NotFound?
    case At(v) => Retry.Seen(w).Found? && Retry.Seen(w).version == v
  }

  predicate Reading(t: Thread) { t.pc.UpsertGet? || t.pc.RetryGet? || t.pc.TrailGet? }

  predicate Writing(t: Thread) { t.pc.Create? || t.pc.WriteFirst? || t.pc.RetryUpdate? || t.pc.TrailUpdate? }

  lemma ReadRefines(pm: Params, store: map<Key, seq<Version>>, t: Thread, view: View, w: World)
    requires pm.retries > 0 && InCall(pm, t) && Reading(t) && PhaseOk(t) && Visible(store, StoreKey(pm, t.d), view)
    requires Retry.Moved(w).history == Obits(ObjectAt(store, StoreKey(pm, t.d))) && Answers(w, view)
    ensures Comes(pm, AfterGet(pm, store, t, view), Retry.Moved(w), Appending(t), Ahead(pm, t, w))
  {
    hide StoreKey, Bump, Newborn, FirstStatus, AppendHeal;
  }

  lemma ConflictRefines(w: World, mutate: Obituary -> Option<Obituary>, left: nat, version: nat, seen: Obituary, next: Obituary)
    requires Retry.Updated(w, version, next).1.Conflict?
    ensures var w' := Retry.Updated(w, version, next).0;
      var x, y := Retry.AttemptWrite(w, mutate, left, version, seen, next).1, Retry.Attempt(w', mutate, left, None).1;
      x == y || (x.GaveUp? && y.GaveUp?)
  {
    LastIsIrrelevant(Retry.Updated(w, version, next).0, mutate, left, Some((seen, next)), None);
  }

  function AfterWrite(pm: Params, store: map<Key, seq<Version>>, tid: nat, t: Thread, fault: bool, w: World): World {
    Retry.World(Obits(ObjectAt(StoreAfterPut(pm, store, tid, t, fault), StoreKey(pm, t.d))), Retry.Rest(w.script))
  }

  /** A write attempt about to be made, with the method's world at the same point. */
  ghost predicate WriteDue(pm: Params, store: map<Key, seq<Version>>, t: Thread, fault: bool, w: World) {
    var k := StoreKey(pm, t.d);
    && pm.retries > 0 && InCall(pm, t) && Writing(t) && PhaseOk(t)
    && Retry.Moved(w).history == Obits(ObjectAt(store, k)) && fault == Retry.FirstMove(w.script).fails
    && (k in store ==> store[k] != [])
  }

  lemma CreationRefines(pm: Params, store: map<Key, seq<Version>>, tid: nat, t: Thread, fault: bool, w: World)
    requires WriteDue(pm, store, t, fault, w) && (t.pc.Create? || t.pc.WriteFirst?)
    ensures Comes(pm, ThreadAfterPut(pm, store, t, fault), AfterWrite(pm, store, tid, t, fault, w), false, Ahead(pm, t, w))
  {
    hide StoreKey, Bump, Newborn, FirstStatus, AppendHeal, Retry.Attempt;
    if t.pc.Create? && !fault && StoreKey(pm, t.d) !in store {
      assert AfterWrite(pm, store, tid, t, fault, w).history == [Newborn(pm.lower, t.d)];
    }
  }

  lemma BumpRefines(pm: Params, store: map<Key, seq<Version>>, tid: nat, t: Thread, fault: bool, w: World)
    requires WriteDue(pm, store, t, fault, w) && t.pc.RetryUpdate?
    ensures Comes(pm, ThreadAfterPut(pm, store, t, fault), AfterWrite(pm, store, tid, t, fault, w), false, Ahead(pm, t, w))
  {
    hide StoreKey, Bump, Newborn, FirstStatus, Retry.Attempt, Upsert, UpsertNew, UpsertFirst, AddRecord;
    var RetryUpdate(attempt, version, seen) := t.pc;
    var change := CountDeath(pm.lower, t.d);
    var next := change(seen).value;
    var w' := AfterWrite(pm, store, tid, t, fault, w);
    if Retry.Updated(w, version, next).1.Conflict? {
      ConflictRefines(w, change, pm.retries - attempt - 1, version, seen, next);
      assert w' == Retry.Updated(w, version, next).0;
      if attempt + 1 == pm.retries { GivesUp(w', change); }
    }
  }

  lemma TrailRefines(pm: Params, store: map<Key, seq<Version>>, tid: nat, t: Thread, fault: bool, w: World)
    requires WriteDue(pm, store, t, fault, w) && t.pc.TrailUpdate?
    ensures Comes(pm, ThreadAfterPut(pm, store, t, fault), AfterWrite(pm, store, tid, t, fault, w), true, Ahead(pm, t, w))
  {
    hide StoreKey, AppendHeal, Retry.Attempt, Upsert, UpsertNew, UpsertFirst, UpsertKnown, CountDeath;
    var TrailUpdate(rec, attempt, version, seen) := t.pc;
    var change := AddRecord(rec, pm.maxAttempts);
    var next := change(seen).value;
    var t', w' := ThreadAfterPut(pm, store, t, fault), AfterWrite(pm, store, tid, t, fault, w);
    if Retry.Updated(w, version, next).1.Conflict? {
      ConflictRefines(w, change, pm.retries - attempt - 1, version, seen, next);
      assert w' == Retry.Updated(w, version, next).0;
      if attempt + 1 == pm.retries { GivesUp(w', change); }
    }
  }

  lemma GivesUp(w: World, mutate: Obituary -> Option<Obituary>)
    ensures Retry.Attempt(w, mutate, 0, None).1.GaveUp?
  {
  }

  // ---------- a whole call among the steps of others ----------

  /** The object of thread tid. */
  function Mine(pm: Params, s: State, tid: nat): seq<Version>
    requires tid in s.threads
  {
    ObjectAt(s.store, StoreKey(pm, s.threads[tid].d))
  }

  /** The step is the thread's own next call of the API. */
  predicate OwnCall(pm: Params, s: State, st: Step, tid: nat) {
    && tid in s.threads && InCall(pm, s.threads[tid]) && Enabled(pm, s, st)
    && ((st.Get? && st.tid == tid && Reading(s.threads[tid])) || (st.Put? && st.tid == tid && Writing(s.threads[tid])))
  }

  /** That call as a move: what the others committed since position `base`, how stale the read is, whether it fails. */
  function AsMove(pm: Params, s: State, st: Step, tid: nat, base: nat): Retry.Move<Obituary>
    requires OwnCall(pm, s, st, tid) && base <= |Mine(pm, s, tid)|
  {
    var h := Obits(Mine(pm, s, tid));
    match st
    case Put(_, fault) => Retry.Move(h[base..], 0, fault)
    case Get(_, view) =>
      match view
      case At(v) => Retry.Move(h[base..], |h| - 1 - v, false)
      case Absent => Retry.Move(h[base..], |h|, false)
      case Unavailable => Retry.Move(h[base..], 0, true)
  }

  function RunFrom(pm: Params, s: State, steps: seq<Step>): State
    decreases |steps|
  {
    if |steps| == 0 then s else RunFrom(pm, Next(pm, s, steps[0]), steps[1..])
  }

  /** The script that the steps of a run amount to for thread tid, whose object had `base` versions at its last call. */
  function ScriptOf(pm: Params, s: State, steps: seq<Step>, tid: nat, base: nat): seq<Retry.Move<Obituary>>
    decreases |steps|
  {
    if |steps| == 0 || tid !in s.threads || !InCall(pm, s.threads[tid]) then []
    else
      var s' := Next(pm, s, steps[0]);
      if OwnCall(pm, s, steps[0], tid) && base <= |Mine(pm, s, tid)| && tid in s'.threads then
        [AsMove(pm, s, steps[0], tid, base)] + ScriptOf(pm, s', steps[1..], tid, |Mine(pm, s', tid)|)
      else ScriptOf(pm, s', steps[1..], tid, base)
  }

  lemma MoveAnswers(pm: Params, s: State, st: Step, tid: nat, base: nat, rest: seq<Retry.Move<Obituary>>)
    requires OwnCall(pm, s, st, tid) && base <= |Mine(pm, s, tid)|
    ensures var w := Retry.World(Obits(Mine(pm, s, tid))[..base], [AsMove(pm, s, st, tid, base)] + rest);
      && Retry.Moved(w) == Retry.World(Obits(Mine(pm, s, tid)), rest)
      && (st.Get? ==> Answers(w, st.view)) && (st.Put? ==> Retry.FirstMove(w.script).fails == st.fault)
  {
    hide InCall;
    var h, m := Obits(Mine(pm, s, tid)), AsMove(pm, s, st, tid, base);
    assert h[..base] + h[base..] == h;
    assert ([m] + rest)[1..] == rest;
  }

  lemma OwnStepRefines(pm: Params, s: State, st: Step, tid: nat, base: nat, rest: seq<Retry.Move<Obituary>>)
    requires pm.retries > 0 && Inv(pm, s) && PhasesOk(s) && OwnCall(pm, s, st, tid) && base <= |Mine(pm, s, tid)|
    ensures var t, s' := s.threads[tid], Next(pm, s, st);
      && tid in s'.threads
      && Comes(pm, s'.threads[tid], Retry.World(Obits(Mine(pm, s', tid)), rest), Appending(t),
               Ahead(pm, t, Retry.World(Obits(Mine(pm, s, tid))[..base], [AsMove(pm, s, st, tid, base)] + rest)))
  {
    var t := s.threads[tid];
    var w := Retry.World(Obits(Mine(pm, s, tid))[..base], [AsMove(pm, s, st, tid, base)] + rest);
    MoveAnswers(pm, s, st, tid, base, rest);
    assert PhaseOk(t) && ThreadOk(pm, s.store, t);
    hide Ahead, Reported, StoreKey, AsMove, ThreadOk, Answers, AfterGet, StoreAfterPut, ThreadAfterPut;
    match st
    case Get(_, view) =>
      GetFields(pm, s.store, t, view);
      ReadRefines(pm, s.store, t, view, w);
    case Put(_, fault) =>
      PutFields(pm, s.store, t, fault);
      if StoreKey(pm, t.d) in s.store { assert HistoryOk(pm, StoreKey(pm, t.d), s.store[StoreKey(pm, t.d)]); }
      if t.pc.RetryUpdate? {
        BumpRefines(pm, s.store, tid, t, fault, w);
      } else if t.pc.TrailUpdate? {
        TrailRefines(pm, s.store, tid, t, fault, w);
      } else {
        CreationRefines(pm, s.store, tid, t, fault, w);
      }
    case _ =>
  }

  /** Inside a call every step that is not its next call of the API leaves the thread where it is. */
  lemma IdleKeeps(pm: Params, s: State, st: Step, tid: nat)
    requires tid in s.threads && InCall(pm, s.threads[tid]) && !OwnCall(pm, s, st, tid)
    ensures tid in Next(pm, s, st).threads && Next(pm, s, st).threads[tid] == s.threads[tid]
  {
    hide StoreKey, StoreAfterPut, RateLimit.Call;
    if Mover(st) != Some(tid) { OthersUntouched(pm, s, st, tid); }
  }

  lemma ThreadStays(pm: Params, s: State, st: Step, tid: nat)
    requires tid in s.threads
    ensures tid in Next(pm, s, st).threads
  {
    hide StoreKey, AfterGet, AfterJudge, StoreAfterPut, ThreadAfterPut, RateLimit.Call;
  }

  /** What a call reported stays. */
  lemma ReportStaysStep(pm: Params, s: State, st: Step, tid: nat, appending: bool)
    requires PhasesOk(s) && tid in s.threads && Over(s.threads[tid], appending)
    ensures tid in Next(pm, s, st).threads && Over(Next(pm, s, st).threads[tid], appending)
    ensures Reported(Next(pm, s, st).threads[tid], appending) == Reported(s.threads[tid], appending)
  {
    hide StoreKey, StoreAfterPut, RateLimit.Call, Assess;
    assert PhaseOk(s.threads[tid]);
    if Mover(st) != Some(tid) { OthersUntouched(pm, s, st, tid); }
  }

  lemma {:induction false} ReportStays(pm: Params, s: State, steps: seq<Step>, tid: nat, appending: bool)
    requires PhasesOk(s) && tid in s.threads && Over(s.threads[tid], appending)
    ensures tid in RunFrom(pm, s, steps).threads
    ensures Reported(RunFrom(pm, s, steps).threads[tid], appending) == Reported(s.threads[tid], appending)
    decreases |steps|
  {
    hide Next, Over, Reported;
    if |steps| > 0 {
      StepKeepsPhases(pm, s, steps[0]);
      ReportStaysStep(pm, s, steps[0], tid, appending);
      ReportStays(pm, Next(pm, s, steps[0]), steps[1..], tid, appending);
    }
  }

  lemma MineGrows(pm: Params, s: State, st: Step, tid: nat, base: nat)
    requires Inv(pm, s) && tid in s.threads && tid in Next(pm, s, st).threads
    requires Next(pm, s, st).threads[tid] == s.threads[tid] && base <= |Mine(pm, s, tid)|
    ensures base <= |Mine(pm, Next(pm, s, st), tid)|
    ensures Obits(Mine(pm, Next(pm, s, st), tid))[..base] == Obits(Mine(pm, s, tid))[..base]
  {
    hide Next, StoreKey;
    StepKeepsStore(pm, s, st);
  }

  /** What the call will come out with, seen from a state of the run and the steps to come. */
  function Foreseen(pm: Params, s: State, steps: seq<Step>, tid: nat, base: nat): Outcome
    requires tid in s.threads && InCall(pm, s.threads[tid]) && base <= |Mine(pm, s, tid)|
  {
    Ahead(pm, s.threads[tid], Retry.World(Obits(Mine(pm, s, tid))[..base], ScriptOf(pm, s, steps, tid, base)))
  }

  /** A call that is over by the end of the steps came out as foreseen. */
  lemma {:induction false} CallRefines(pm: Params, s: State, steps: seq<Step>, tid: nat, base: nat)
    requires pm.retries > 0 && Inv(pm, s) && PhasesOk(s)
    requires tid in s.threads && InCall(pm, s.threads[tid]) && base <= |Mine(pm, s, tid)|
    ensures tid in RunFrom(pm, s, steps).threads
    ensures var t', appending := RunFrom(pm, s, steps).threads[tid], Appending(s.threads[tid]);
      Over(t', appending) ==> Reported(t', appending) == Foreseen(pm, s, steps, tid, base)
    decreases |steps|
  {
    hide Next, Ahead, Reported, InCall, AsMove, Mine;
    if |steps| == 0 {
      assert PhaseOk(s.threads[tid]);
      StillInside(pm, s.threads[tid]);
    } else {
      var st, s' := steps[0], Next(pm, s, steps[0]);
      StepKeepsInv(pm, s, st);
      StepKeepsPhases(pm, s, st);
      if OwnCall(pm, s, st, tid) {
        ThreadStays(pm, s, st, tid);
        var base' := |Mine(pm, s', tid)|;
        var rest := ScriptOf(pm, s', steps[1..], tid, base');
        OwnStepRefines(pm, s, st, tid, base, rest);
        assert Obits(Mine(pm, s', tid))[..base'] == Obits(Mine(pm, s', tid));
        if InCall(pm, s'.threads[tid]) {
          CallRefines(pm, s', steps[1..], tid, base');
        } else {
          ReportStays(pm, s', steps[1..], tid, Appending(s.threads[tid]));
        }
      } else {
        IdleKeeps(pm, s, st, tid);
        MineGrows(pm, s, st, tid, base);
        CallRefines(pm, s', steps[1..], tid, base);
      }
    }
  }

  lemma StillInside(pm: Params, t: Thread)
    requires InCall(pm, t) && PhaseOk(t)
    ensures !Over(t, Appending(t))
  {
  }

  lemma {:induction false} RunContinues(pm: Params, clock: int, before: seq<Step>, steps: seq<Step>)
    ensures Run(pm, clock, before + steps) == RunFrom(pm, Run(pm, clock, before), steps)
    decreases |steps|
  {
    hide Next;
    if |steps| == 0 {
      assert before + steps == before;
    } else {
      var head := before + [steps[0]];
      assert head[..|before|] == before;
      assert head + steps[1..] == before + steps;
      RunContinues(pm, clock, head, steps[1..]);
    }
  }

  // ---------- the two calls ----------

  /**
   upsertObituary inside any run: once it has returned, its results, and whether it committed its death, are those of
   the method on the object as it stood, under the script of everything that happened in between.
   */
  lemma UpsertRefinesMethod(pm: Params, clock: int, before: seq<Step>, steps: seq<Step>, tid: nat)
    requires pm.window > 0 && pm.retries > 0
    requires tid in Run(pm, clock, before).threads && Run(pm, clock, before).threads[tid].pc == UpsertGet
    ensures var s, s' := Run(pm, clock, before), Run(pm, clock, before + steps);
      && tid in s'.threads
      && var t, t', h := s.threads[tid], s'.threads[tid], Mine(pm, s, tid);
      var w := Retry.World(Obits(h), ScriptOf(pm, s, steps, tid, |h|));
      t'.upsert.Returned? ==>
        Upserted(t'.upsert.created, t'.upsert.bumped, t'.upsert.failed, t'.wrote.Some?, t'.upsert.raced)
        == Upsert(pm.lower, w, t.d, pm.retries).1
  {
    hide Run, Next, Mine, ScriptOf, Upsert;
    var s := Run(pm, clock, before);
    RunKeepsWhole(pm, clock, before);
    RunContinues(pm, clock, before, steps);
    var h := Obits(Mine(pm, s, tid));
    CallRefines(pm, s, steps, tid, |h|);
    assert h[..|h|] == h;
  }

  /**
   appendRecord inside any run: once its reconcile is over, the record is committed exactly when the script of
   everything that happened in between lets an attempt land.
   */
  lemma RecordedIffLands(pm: Params, clock: int, before: seq<Step>, steps: seq<Step>, tid: nat, rec: HealRecord)
    requires pm.window > 0 && pm.retries > 0
    requires tid in Run(pm, clock, before).threads && Run(pm, clock, before).threads[tid].pc == TrailGet(rec, 0)
    ensures var s, s' := Run(pm, clock, before), Run(pm, clock, before + steps);
      && tid in s'.threads
      && var h := Mine(pm, s, tid);
      s'.threads[tid].pc.Finished? ==>
        (s'.threads[tid].logged.Some? <==> Retry.Lands(ScriptOf(pm, s, steps, tid, |h|), |h|, pm.retries))
  {
    hide Run, Next, Mine, ScriptOf, Retry.Attempt, Retry.Lands;
    var s := Run(pm, clock, before);
    RunKeepsWhole(pm, clock, before);
    RunContinues(pm, clock, before, steps);
    var h := Obits(Mine(pm, s, tid));
    CallRefines(pm, s, steps, tid, |h|);
    assert h[..|h|] == h;
    Retry.WroteIffLands(Retry.World(h, ScriptOf(pm, s, steps, tid, |h|)), AddRecord(rec, pm.maxAttempts), pm.retries, None);
  }
}
