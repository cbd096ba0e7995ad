/**
 What the concurrent reconciles keep about their writes and their heal budget: every thread commits at
 most one death and one heal record, every grant leads to exactly one outcome, and every outcome used
 exactly one grant.
 */
module Conservation {
  import opened Common
  import opened Decider
  import opened Obituaries
  import opened Engine
  import opened Reconciles
  import RateLimit

  // ---------- each thread's own bookkeeping ----------

  /** What upsertObituary's result says about whether the death was written. */
  predicate UpsertOk(t: Thread) {
    match t.upsert
    case Pending => t.wrote.None?
    case Returned(created, bumped, failed, raced) =>
      && !(created && bumped)
      && (raced ==> !created && !bumped && !failed)
      && (failed ==> !bumped && t.wrote.None?)
      && (!created && !bumped ==> t.wrote.None?)
      && (created && !failed ==> t.wrote.Some?)
  }

  /** A record says Skipped exactly when no budget was used, and a committed record was tried before. */
  predicate TriedOk(t: Thread) {
    && (t.tried.Some? ==> (t.tried.value.outcome.Skipped? <==> t.grant.None?))
    && (t.logged.Some? ==> t.tried.Some?)
  }

  predicate PhaseOk(t: Thread) {
    && UpsertOk(t) && TriedOk(t)
    && match t.pc
       case HealLookup => !t.upsert.Pending? && t.grant.None? && t.tried.None?
       case Reserving(_) => !t.upsert.Pending? && t.grant.None? && t.tried.None?
       case Granted(_, g) => t.grant == Some(g) && t.tried.None?
       case Executing(_, g, _) => t.grant == Some(g) && t.tried.None?
       case TrailGet(rec, _) => t.tried == Some(rec) && t.logged.None?
       case TrailUpdate(rec, _, _, _) => t.tried == Some(rec) && t.logged.None?
       case Finished => t.grant.Some? ==> t.tried.Some?
       case _ => t.upsert.Pending? && t.grant.None? && t.tried.None?
  }

  ghost predicate PhasesOk(s: State) { forall tid :: tid in s.threads ==> PhaseOk(s.threads[tid]) }

  lemma GetKeepsPhase(pm: Params, store: map<Key, seq<Version>>, t: Thread, view: View)
    requires PhaseOk(t) && Visible(store, StoreKey(pm, t.d), view)
    ensures PhaseOk(AfterGet(pm, store, t, view))
  {
  }

  lemma PutKeepsPhase(pm: Params, store: map<Key, seq<Version>>, t: Thread, fault: bool)
    requires PhaseOk(t)
    ensures PhaseOk(ThreadAfterPut(pm, store, t, fault))
  {
  }

  lemma JudgeKeepsPhase(pm: Params, s: State, t: Thread, view: View, policy: HealPolicy, nsAllowed: bool, llm: Option<Reply>)
    requires PhaseOk(t) && t.pc.HealLookup? && Visible(s.store, StoreKey(pm, t.d), view)
    ensures PhaseOk(AfterJudge(pm, s, t, view, policy, nsAllowed, llm))
  {
  }

  lemma BudgetStepKeepsPhase(pm: Params, s: State, st: Step)
    requires Enabled(pm, s, st) && (st.Reserve? || st.Settle?) && PhaseOk(s.threads[st.tid])
    ensures st.tid in Next(pm, s, st).threads && PhaseOk(Next(pm, s, st).threads[st.tid])
  {
    hide RateLimit.Call, KindAfterGrant, Cap, HealNs;
  }

  lemma StepKeepsPhases(pm: Params, s: State, st: Step)
    requires PhasesOk(s)
    ensures PhasesOk(Next(pm, s, st))
  {
    if Enabled(pm, s, st) {
      forall tid | tid in Next(pm, s, st).threads
        ensures PhaseOk(Next(pm, s, st).threads[tid])
      {
        if Mover(st) != Some(tid) {
          OthersUntouched(pm, s, st, tid);
        } else {
          match st
          case Get(_, view) => GetKeepsPhase(pm, s.store, s.threads[tid], view);
          case Put(_, fault) => PutKeepsPhase(pm, s.store, s.threads[tid], fault);
          case Judge(_, view, policy, nsAllowed, llm) => JudgeKeepsPhase(pm, s, s.threads[tid], view, policy, nsAllowed, llm);
          case Reserve(_) => BudgetStepKeepsPhase(pm, s, st);
          case Settle(_) => BudgetStepKeepsPhase(pm, s, st);
          case _ =>
        }
      }
    }
  }

  // ---------- committed writes and their threads ----------

  /** A committed write belongs to one thread, which remembers exactly that version. */
  ghost predicate WriteOwned(pm: Params, threads: map<nat, Thread>, k: Key, i: nat, w: Write) {
    match w
    case DeathWrite(tid, d) => tid in threads && threads[tid].d == d && threads[tid].wrote == Some(i)
    case HealWrite(tid, rec) =>
      && tid in threads && StoreKey(pm, threads[tid].d) == k && threads[tid].logged == Some(i)
      && threads[tid].tried == Some(rec)
    case _ => true
  }

  /** What a thread remembers having committed is there. */
  ghost predicate RemembersTruly(pm: Params, store: map<Key, seq<Version>>, tid: nat, t: Thread) {
    var k := StoreKey(pm, t.d);
    && (t.wrote.Some? ==> k in store && t.wrote.value < |store[k]| && store[k][t.wrote.value].write == DeathWrite(tid, t.d))
    && (t.logged.Some? ==>
        && k in store && t.logged.value < |store[k]|
        && t.tried.Some? && store[k][t.logged.value].write == HealWrite(tid, t.tried.value))
  }

  ghost predicate WritesOwned(pm: Params, store: map<Key, seq<Version>>, threads: map<nat, Thread>) {
    forall k, i: nat :: k in store && i < |store[k]| ==> WriteOwned(pm, threads, k, i, store[k][i].write)
  }

  ghost predicate AllRemember(pm: Params, store: map<Key, seq<Version>>, threads: map<nat, Thread>) {
    forall tid :: tid in threads ==> RemembersTruly(pm, store, tid, threads[tid])
  }

  ghost predicate WritesOk(pm: Params, s: State) {
    WritesOwned(pm, s.store, s.threads) && AllRemember(pm, s.store, s.threads)
  }

  /** The effect of a write attempt on the store and on what the thread remembers. */
  datatype PutEffect = Nothing | Birth | Wrote(v: Version)

  ghost predicate PutDoes(pm: Params, store: map<Key, seq<Version>>, tid: nat, t: Thread, store': map<Key, seq<Version>>, t': Thread, e: PutEffect) {
    var k := StoreKey(pm, t.d);
    && t'.d == t.d && t'.grant == t.grant && t'.tried == t.tried
    && match e
       case Nothing => store' == store && t'.wrote == t.wrote && t'.logged == t.logged
       case Birth =>
         && k !in store && k in store' && |store'[k]| == 1 && store'[k][0].write.Created?
         && store' == store[k := store'[k]] && t'.wrote == t.wrote && t'.logged == t.logged
       case Wrote(v) =>
         && k in store && store' == store[k := store[k] + [v]]
         && ((v.write == DeathWrite(tid, t.d) && t.wrote.None? && t'.wrote == Some(|store[k]|) && t'.logged == t.logged)
             || (t.pc.TrailUpdate? && v.write == HealWrite(tid, t.pc.rec) && t.logged.None? && t'.logged == Some(|store[k]|)
                 && t'.wrote == t.wrote && t.tried == Some(t.pc.rec)))
  }

  lemma PutEffectOf(pm: Params, store: map<Key, seq<Version>>, tid: nat, t: Thread, fault: bool) returns (e: PutEffect)
    requires PhaseOk(t)
    ensures PutDoes(pm, store, tid, t, StoreAfterPut(pm, store, tid, t, fault), ThreadAfterPut(pm, store, t, fault), e)
  {
    var k := StoreKey(pm, t.d);
    var lower := pm.lower;
    e := Nothing;
    if !fault {
      match t.pc
      case Create =>
        if k !in store { e := Birth; }
      case WriteFirst =>
        if Current(store, k, 0) { e := Wrote(Version(Newborn(lower, t.d).(status := FirstStatus(lower, t.d)), DeathWrite(tid, t.d))); }
      case RetryUpdate(_, version, seen) =>
        if Current(store, k, version) { e := Wrote(Version(seen.(status := Bump(lower, seen.status, t.d)), DeathWrite(tid, t.d))); }
      case TrailUpdate(rec, _, version, seen) =>
        if Current(store, k, version) { e := Wrote(Version(seen.(status := AppendHeal(seen.status, rec, pm.maxAttempts)), HealWrite(tid, rec))); }
      case _ =>
    }
  }

  lemma PutKeepsOwned(pm: Params, s: State, tid: nat, t': Thread, store': map<Key, seq<Version>>, e: PutEffect)
    requires WritesOwned(pm, s.store, s.threads) && tid in s.threads
    requires PutDoes(pm, s.store, tid, s.threads[tid], store', t', e)
    ensures WritesOwned(pm, store', s.threads[tid := t'])
  {
    var threads' := s.threads[tid := t'];
    forall k2, i: nat | k2 in store' && i < |store'[k2]|
      ensures WriteOwned(pm, threads', k2, i, store'[k2][i].write)
    {
      if k2 in s.store && i < |s.store[k2]| {
        assert store'[k2][i] == s.store[k2][i];
        assert WriteOwned(pm, s.threads, k2, i, s.store[k2][i].write);
      }
    }
  }

  lemma PutKeepsMemory(pm: Params, s: State, tid: nat, t': Thread, store': map<Key, seq<Version>>, e: PutEffect)
    requires AllRemember(pm, s.store, s.threads) && tid in s.threads
    requires PutDoes(pm, s.store, tid, s.threads[tid], store', t', e)
    ensures AllRemember(pm, store', s.threads[tid := t'])
  {
    var threads' := s.threads[tid := t'];
    forall other | other in threads'
      ensures RemembersTruly(pm, store', other, threads'[other])
    {
      assert RemembersTruly(pm, s.store, other, s.threads[other]);
    }
  }

  /** A step that writes nothing and changes at most the mover's program counter and grant. */
  lemma QuietKeepsWrites(pm: Params, s: State, tid: nat, t': Thread)
    requires WritesOk(pm, s)
    requires tid in s.threads ==>
      var t := s.threads[tid];
      t'.d == t.d && t'.wrote == t.wrote && t'.logged == t.logged && (t.logged.Some? ==> t'.tried == t.tried)
    requires tid !in s.threads ==> t'.wrote.None? && t'.logged.None?
    ensures WritesOwned(pm, s.store, s.threads[tid := t'])
    ensures AllRemember(pm, s.store, s.threads[tid := t'])
  {
    var threads' := s.threads[tid := t'];
    forall k, i: nat | k in s.store && i < |s.store[k]|
      ensures WriteOwned(pm, threads', k, i, s.store[k][i].write)
    {
      assert WriteOwned(pm, s.threads, k, i, s.store[k][i].write);
    }
    forall other | other in threads'
      ensures RemembersTruly(pm, s.store, other, threads'[other])
    {
      if other in s.threads { assert RemembersTruly(pm, s.store, other, s.threads[other]); }
    }
  }

  lemma TouchKeepsWrites(pm: Params, s: State, k: Key, v: Version)
    requires WritesOk(pm, s) && k in s.store && v.write.ForeignWrite?
    ensures WritesOwned(pm, s.store[k := s.store[k] + [v]], s.threads)
    ensures AllRemember(pm, s.store[k := s.store[k] + [v]], s.threads)
  {
    var store': map<Key, seq<Version>> := s.store[k := s.store[k] + [v]];
    forall k2, i: nat | k2 in store' && i < |store'[k2]|
      ensures WriteOwned(pm, s.threads, k2, i, store'[k2][i].write)
    {
      if i < |s.store[k2]| { assert WriteOwned(pm, s.threads, k2, i, s.store[k2][i].write); }
    }
    forall other | other in s.threads
      ensures RemembersTruly(pm, store', other, s.threads[other])
    {
      assert RemembersTruly(pm, s.store, other, s.threads[other]);
    }
  }

  /** What a step other than a write attempt does to its mover. */
  lemma QuietMover(pm: Params, s: State, st: Step)
    requires PhasesOk(s) && Enabled(pm, s, st) && Mover(st).Some? && !st.Put?
    ensures var s', tid := Next(pm, s, st), Mover(st).value;
      && s'.store == s.store && tid in s'.threads && s'.threads == s.threads[tid := s'.threads[tid]]
      && var t' := s'.threads[tid];
      if tid in s.threads then
        var t := s.threads[tid];
        t'.d == t.d && t'.wrote == t.wrote && t'.logged == t.logged && (t.logged.Some? ==> t'.tried == t.tried)
      else t'.wrote.None? && t'.logged.None?
  {
    hide AfterGet, AfterJudge;
    match st
    case Spawn(_, _) =>
    case Get(tid, view) => GetFields(pm, s.store, s.threads[tid], view);
    case Judge(tid, view, policy, nsAllowed, llm) =>
      assert PhaseOk(s.threads[tid]);
      JudgeFields(pm, s, s.threads[tid], view, policy, nsAllowed, llm);
    case Reserve(tid) => assert PhaseOk(s.threads[tid]);
    case Settle(tid) => assert PhaseOk(s.threads[tid]);
    case Mutate(tid) => assert PhaseOk(s.threads[tid]);
    case Return(tid, _) => assert PhaseOk(s.threads[tid]);
  }

  lemma StepKeepsWrites(pm: Params, s: State, st: Step)
    requires WritesOk(pm, s) && PhasesOk(s)
    ensures WritesOk(pm, Next(pm, s, st))
  {
    if Enabled(pm, s, st) {
      if st.Put? {
        var t := s.threads[st.tid];
        assert PhaseOk(t);
        var e := PutEffectOf(pm, s.store, st.tid, t, st.fault);
        PutKeepsOwned(pm, s, st.tid, ThreadAfterPut(pm, s.store, t, st.fault), StoreAfterPut(pm, s.store, st.tid, t, st.fault), e);
        PutKeepsMemory(pm, s, st.tid, ThreadAfterPut(pm, s.store, t, st.fault), StoreAfterPut(pm, s.store, st.tid, t, st.fault), e);
      } else if st.Touch? {
        TouchKeepsWrites(pm, s, st.key, Version(s.store[st.key][|s.store[st.key]| - 1].obit, ForeignWrite));
      } else if st.Tick? {
      } else {
        QuietMover(pm, s, st);
        QuietKeepsWrites(pm, s, Mover(st).value, Next(pm, s, st).threads[Mover(st).value]);
      }
    }
  }

  // ---------- grants and their outcomes ----------

  /** A grant is remembered by the thread that took it, and is either still in hand or has led to one event. */
  ghost predicate ReceiptOk(s: State, g: nat)
    requires g < |s.receipts|
  {
    var r := s.receipts[g];
    && r.holder in s.threads && s.threads[r.holder].grant == Some(g)
    && (r.event.None? <==> s.threads[r.holder].pc.Granted?)
    && (r.event.Some? ==> r.event.value < |s.events| && s.events[r.event.value].grant == g)
  }

  /** An event used one grant of its own namespace and policy cap, taken no later. */
  ghost predicate EventOk(s: State, e: nat)
    requires e < |s.events|
  {
    var ev := s.events[e];
    && ev.grant < |s.receipts| && ev.grant < |s.ledger.log| && s.receipts[ev.grant].event == Some(e)
    && s.ledger.log[ev.grant].ns == HealNs(ev.heal) && s.ledger.log[ev.grant].cap == Cap(ev.heal.policy)
    && s.ledger.log[ev.grant].time <= ev.at <= s.ledger.clock
    && ev.kind == KindAfterGrant(ev.heal)
  }

  ghost predicate HolderOk(s: State, tid: nat)
    requires tid in s.threads
  {
    var t := s.threads[tid];
    && (t.grant.Some? ==> t.grant.value < |s.receipts| && s.receipts[t.grant.value].holder == tid)
    && (t.pc.Granted? ==>
        && t.grant == Some(t.pc.grant) && t.pc.grant < |s.ledger.log|
        && s.ledger.log[t.pc.grant].ns == HealNs(t.pc.heal) && s.ledger.log[t.pc.grant].cap == Cap(t.pc.heal.policy))
    && (t.pc.Executing? ==>
        && t.grant == Some(t.pc.grant) && t.pc.grant < |s.receipts| && s.receipts[t.pc.grant].event.Some?
        && var e := s.receipts[t.pc.grant].event.value;
           e < |s.events| && s.events[e].kind.ExecutorStart? && s.events[e].heal == t.pc.heal)
  }

  ghost predicate BudgetOk(s: State) {
    && |s.receipts| == |s.ledger.log|
    && (forall g: nat :: g < |s.receipts| ==> ReceiptOk(s, g))
    && (forall e: nat :: e < |s.events| ==> EventOk(s, e))
    && (forall tid :: tid in s.threads ==> HolderOk(s, tid))
    && (forall i :: 0 <= i < |s.cluster| ==> s.cluster[i] < |s.events| && s.events[s.cluster[i]].kind.ExecutorStart?)
    && (forall i :: 0 <= i < |s.ledger.log| ==> s.ledger.log[i].time <= s.ledger.clock)
  }

  /** The mover of a step outside the limiter keeps its grant and neither enters nor leaves the granted states silently. */
  predicate BudgetSame(t: Thread, t': Thread) {
    && t'.grant == t.grant
    && (t.pc.Granted? || t'.pc.Granted? ==> t'.pc == t.pc)
    && (t'.pc.Executing? ==> t'.pc == t.pc)
  }

  lemma SameKeepsBudget(s: State, tid: nat, t': Thread, s': State)
    requires BudgetOk(s)
    requires if tid in s.threads then BudgetSame(s.threads[tid], t') else t'.grant.None? && !t'.pc.Granted? && !t'.pc.Executing?
    requires s'.threads == s.threads[tid := t'] && s'.ledger == s.ledger && s'.receipts == s.receipts
    requires s'.events == s.events && s'.cluster == s.cluster
    ensures BudgetOk(s')
  {
    forall g: nat | g < |s'.receipts| ensures ReceiptOk(s', g) { assert ReceiptOk(s, g); }
    forall e: nat | e < |s'.events| ensures EventOk(s', e) { assert EventOk(s, e); }
    forall other | other in s'.threads ensures HolderOk(s', other) {
      if other in s.threads { assert HolderOk(s, other); }
    }
  }

  /** A refused reservation changes the limiter's memory and the thread's counter, nothing else. */
  lemma RefusalKeepsBudget(s: State, s': State, tid: nat, t': Thread)
    requires BudgetOk(s) && tid in s.threads && BudgetSame(s.threads[tid], t')
    requires s' == s.(ledger := s'.ledger, threads := s.threads[tid := t'])
    requires s'.ledger.log == s.ledger.log && s'.ledger.clock == s.ledger.clock
    ensures BudgetOk(s')
  {
    forall g: nat | g < |s'.receipts| ensures ReceiptOk(s', g) { assert ReceiptOk(s, g); }
    forall e: nat | e < |s'.events| ensures EventOk(s', e) { assert EventOk(s, e); }
    forall other | other in s'.threads ensures HolderOk(s', other) { assert HolderOk(s, other); }
  }

  /** A grant adds one receipt, in the hand of the thread that took it. */
  lemma GrantKeepsBudget(s: State, s': State, tid: nat, h: Heal, t': Thread)
    requires BudgetOk(s) && tid in s.threads && s.threads[tid].grant.None? && !s.threads[tid].pc.Granted?
    requires t' == s.threads[tid].(pc := Granted(h, |s.ledger.log|), grant := Some(|s.ledger.log|))
    requires s' == s.(ledger := s'.ledger, receipts := s.receipts + [Receipt(tid, None)], threads := s.threads[tid := t'])
    requires s'.ledger.log == s.ledger.log + [RateLimit.Grant(HealNs(h), s.ledger.clock, Cap(h.policy))]
    requires s'.ledger.clock == s.ledger.clock
    ensures BudgetOk(s')
  {
    forall g: nat | g < |s'.receipts| ensures ReceiptOk(s', g) {
      if g < |s.receipts| { assert ReceiptOk(s, g); }
    }
    forall e: nat | e < |s'.events| ensures EventOk(s', e) { assert EventOk(s, e); }
    forall other | other in s'.threads ensures HolderOk(s', other) { assert HolderOk(s, other); }
  }

  lemma ReserveKeepsBudget(pm: Params, s: State, tid: nat)
    requires BudgetOk(s) && PhasesOk(s) && Enabled(pm, s, Reserve(tid))
    ensures BudgetOk(AfterReserve(pm, s, tid))
  {
    var s', t := AfterReserve(pm, s, tid), s.threads[tid];
    assert PhaseOk(t);
    if RateLimit.Call(s.ledger, HealNs(t.pc.heal), pm.window, Cap(t.pc.heal.policy)).1 {
      GrantKeepsBudget(s, s', tid, t.pc.heal, s'.threads[tid]);
    } else {
      RefusalKeepsBudget(s, s', tid, s'.threads[tid]);
    }
  }

  lemma ActKeepsBudget(pm: Params, s: State, tid: nat)
    requires BudgetOk(s) && PhasesOk(s) && Enabled(pm, s, Settle(tid))
    ensures BudgetOk(AfterAct(s, tid))
  {
    hide KindAfterGrant, Cap, HealNs, UpsertOk;
    var s', t := AfterAct(s, tid), s.threads[tid];
    assert PhaseOk(t);
    assert HolderOk(s, tid);
    var mine := t.pc.grant;
    assert ReceiptOk(s, mine);
    forall g: nat | g < |s'.receipts| ensures ReceiptOk(s', g) { assert ReceiptOk(s, g); }
    forall e: nat | e < |s'.events| ensures EventOk(s', e) {
      if e < |s.events| { assert EventOk(s, e); }
    }
    forall other | other in s'.threads ensures HolderOk(s', other) { assert HolderOk(s, other); }
  }

  lemma MutateKeepsBudget(pm: Params, s: State, tid: nat)
    requires BudgetOk(s) && Enabled(pm, s, Mutate(tid))
    ensures BudgetOk(Next(pm, s, Mutate(tid)))
  {
    var s' := Next(pm, s, Mutate(tid));
    assert HolderOk(s, tid);
    forall g: nat | g < |s'.receipts| ensures ReceiptOk(s', g) { assert ReceiptOk(s, g); }
    forall e: nat | e < |s'.events| ensures EventOk(s', e) { assert EventOk(s, e); }
    forall other | other in s'.threads ensures HolderOk(s', other) { assert HolderOk(s, other); }
  }

  lemma TickKeepsBudget(s: State, wait: nat)
    requires BudgetOk(s)
    ensures BudgetOk(s.(ledger := s.ledger.(clock := s.ledger.clock + wait)))
  {
    var s' := s.(ledger := s.ledger.(clock := s.ledger.clock + wait));
    forall g: nat | g < |s'.receipts| ensures ReceiptOk(s', g) { assert ReceiptOk(s, g); }
    forall e: nat | e < |s'.events| ensures EventOk(s', e) { assert EventOk(s, e); }
    forall other | other in s'.threads ensures HolderOk(s', other) { assert HolderOk(s, other); }
  }

  /** Reads, writes, judging, returning and spawning leave limiter, receipts, events and cluster alone. */
  lemma ThreadStepsKeepBudgetSame(pm: Params, s: State, st: Step)
    requires Enabled(pm, s, st) && (st.Get? || st.Put? || st.Judge? || st.Return? || st.Spawn?)
    ensures var s' := Next(pm, s, st);
      && st.tid in s'.threads && s'.threads == s.threads[st.tid := s'.threads[st.tid]]
      && s'.ledger == s.ledger && s'.receipts == s.receipts && s'.events == s.events && s'.cluster == s.cluster
  {
  }

  lemma ThreadStepsKeepGrant(pm: Params, s: State, st: Step)
    requires PhasesOk(s) && Enabled(pm, s, st) && (st.Get? || st.Put? || st.Judge? || st.Return?)
    ensures st.tid in s.threads && st.tid in Next(pm, s, st).threads
    ensures BudgetSame(s.threads[st.tid], Next(pm, s, st).threads[st.tid])
  {
    hide AfterGet, AfterJudge, StoreAfterPut, ThreadAfterPut;
    match st
    case Get(tid, view) => GetFields(pm, s.store, s.threads[tid], view);
    case Put(tid, fault) => PutFields(pm, s.store, s.threads[tid], fault);
    case Judge(tid, view, policy, nsAllowed, llm) => JudgeFields(pm, s, s.threads[tid], view, policy, nsAllowed, llm);
    case _ =>
  }

  lemma StepKeepsBudget(pm: Params, s: State, st: Step)
    requires BudgetOk(s) && PhasesOk(s)
    ensures BudgetOk(Next(pm, s, st))
  {
    if Enabled(pm, s, st) {
      match st
      case Touch(k) => SameStateKeepsBudget(s, Next(pm, s, st));
      case Tick(wait) => TickKeepsBudget(s, wait);
      case Reserve(tid) => ReserveKeepsBudget(pm, s, tid);
      case Settle(tid) => ActKeepsBudget(pm, s, tid);
      case Mutate(tid) => MutateKeepsBudget(pm, s, tid);
      case _ =>
        ThreadStepsKeepBudgetSame(pm, s, st);
        if !st.Spawn? { ThreadStepsKeepGrant(pm, s, st); }
        SameKeepsBudget(s, st.tid, Next(pm, s, st).threads[st.tid], Next(pm, s, st));
    }
  }

  lemma SameStateKeepsBudget(s: State, s': State)
    requires BudgetOk(s) && s' == s.(store := s'.store)
    ensures BudgetOk(s')
  {
    forall g: nat | g < |s'.receipts| ensures ReceiptOk(s', g) { assert ReceiptOk(s, g); }
    forall e: nat | e < |s'.events| ensures EventOk(s', e) { assert EventOk(s, e); }
    forall other | other in s'.threads ensures HolderOk(s', other) { assert HolderOk(s, other); }
  }

  // ---------- the limiter and the events over whole runs ----------

  lemma StepKeepsLedger(pm: Params, s: State, st: Step)
    requires RateLimit.LedgerInv(s.ledger, pm.window)
    ensures RateLimit.LedgerInv(Next(pm, s, st).ledger, pm.window)
  {
    if st.Tick? {
      RateLimit.TickKeepsInv(s.ledger, st.wait, pm.window);
    } else if st.Reserve? && Enabled(pm, s, st) {
      var h := s.threads[st.tid].pc.heal;
      RateLimit.CallKeepsInv(s.ledger, HealNs(h), pm.window, Cap(h.policy));
    }
  }

  /** Whatever was acted on had been decided on a committed version, past every gate. */
  ghost predicate EventsSound(s: State) {
    forall e: nat :: e < |s.events| ==> HealOk(s.store, s.events[e].heal)
  }

  lemma StepKeepsEventsSound(pm: Params, s: State, st: Step)
    requires Inv(pm, s) && EventsSound(s)
    ensures EventsSound(Next(pm, s, st))
  {
    StepKeepsStore(pm, s, st);
    NewEventSound(pm, s, st);
    EventsGrow(s.store, Next(pm, s, st).store, s.events, Next(pm, s, st).events);
  }

  lemma EventsGrow(a: map<Key, seq<Version>>, b: map<Key, seq<Version>>, es: seq<HealEvent>, es': seq<HealEvent>)
    requires Grows(a, b) && |es| <= |es'| <= |es| + 1 && es'[..|es|] == es
    requires forall e: nat :: e < |es| ==> HealOk(a, es[e].heal)
    requires |es'| > |es| ==> HealOk(a, es'[|es|].heal)
    ensures forall e: nat :: e < |es'| ==> HealOk(b, es'[e].heal)
  {
    forall e: nat | e < |es'| ensures HealOk(b, es'[e].heal) {
      if e < |es| { assert es'[e] == es[e]; }
      HealOkGrows(a, b, es'[e].heal);
    }
  }

  lemma HealOkGrows(a: map<Key, seq<Version>>, b: map<Key, seq<Version>>, h: Heal)
    requires Grows(a, b) && HealOk(a, h)
    ensures HealOk(b, h)
  {
    HoldsGrows(a, b, h.key, h.version, h.obit);
  }

  lemma NewEventSound(pm: Params, s: State, st: Step)
    requires Inv(pm, s)
    ensures var s' := Next(pm, s, st);
      && |s.events| <= |s'.events| <= |s.events| + 1 && s'.events[..|s.events|] == s.events
      && (|s'.events| > |s.events| ==> HealOk(s.store, s'.events[|s.events|].heal))
  {
    hide HealOk, AfterGet, AfterJudge, StoreAfterPut, ThreadAfterPut, RateLimit.Call;
    if st.Settle? && Enabled(pm, s, st) { assert ThreadOk(pm, s.store, s.threads[st.tid]); }
  }

  // ---------- the balance of grants ----------

  /** Grants whose thread has not yet settled them. */
  function InHand(receipts: seq<Receipt>): nat {
    if |receipts| == 0 then 0
    else InHand(receipts[..|receipts| - 1]) + (if receipts[|receipts| - 1].event.None? then 1 else 0)
  }

  lemma {:induction false} SettlingOne(receipts: seq<Receipt>, g: nat, r: Receipt)
    requires g < |receipts| && receipts[g].event.None? && r.event.Some?
    ensures InHand(receipts) == InHand(receipts[g := r]) + 1
  {
    var n := |receipts| - 1;
    if g < n {
      SettlingOne(receipts[..n], g, r);
      assert receipts[g := r][..n] == receipts[..n][g := r];
    } else {
      assert receipts[g := r][..n] == receipts[..n];
    }
  }

  ghost predicate Balanced(s: State) { |s.receipts| == |s.events| + InHand(s.receipts) }

  lemma StepKeepsBalance(pm: Params, s: State, st: Step)
    requires BudgetOk(s) && PhasesOk(s) && Balanced(s)
    ensures Balanced(Next(pm, s, st))
  {
    hide AfterGet, AfterJudge, StoreAfterPut, ThreadAfterPut, RateLimit.ReserveOne;
    if Enabled(pm, s, st) {
      if st.Settle? {
        var t := s.threads[st.tid];
        assert PhaseOk(t) && HolderOk(s, st.tid) && ReceiptOk(s, t.pc.grant);
        SettlingOne(s.receipts, t.pc.grant, Receipt(st.tid, Some(|s.events|)));
      } else if st.Reserve? {
        assert (s.receipts + [Receipt(st.tid, None)])[..|s.receipts|] == s.receipts;
      }
    }
  }

  /** Everything above, in every reachable state. */
  ghost predicate Whole(pm: Params, s: State) {
    && Inv(pm, s) && PhasesOk(s) && WritesOk(pm, s) && BudgetOk(s) && EventsSound(s) && Balanced(s)
    && RateLimit.LedgerInv(s.ledger, pm.window)
  }

  lemma {:induction false} RunKeepsWhole(pm: Params, clock: int, steps: seq<Step>)
    requires pm.window > 0
    ensures Whole(pm, Run(pm, clock, steps))
  {
    if |steps| == 0 {
      RateLimit.EmptyLedgerInv(clock, pm.window);
    } else {
      RunKeepsWhole(pm, clock, steps[..|steps| - 1]);
      StepKeepsWhole(pm, Run(pm, clock, steps[..|steps| - 1]), steps[|steps| - 1]);
    }
  }

  lemma StepKeepsWhole(pm: Params, s: State, st: Step)
    requires Whole(pm, s)
    ensures Whole(pm, Next(pm, s, st))
  {
    StepKeepsInv(pm, s, st);
    StepKeepsPhases(pm, s, st);
    StepKeepsWrites(pm, s, st);
    StepKeepsBudget(pm, s, st);
    StepKeepsEventsSound(pm, s, st);
    StepKeepsLedger(pm, s, st);
    StepKeepsBalance(pm, s, st);
  }
}
