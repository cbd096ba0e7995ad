/**
 Optimistic concurrency against one versioned API object, and the conflict retry around it
 (internal/selfheal/actions.go:222-276; the same loop serves koroner.go and engine.go).

 The rest of the cluster is an arbitrary script: before each API call the next move of the
 script commits any number of foreign versions and decides how stale the cached read is and
 whether the call fails for a reason other than a conflict.
 */
module Retry {
  import opened Common

  datatype Move<T> = Move(foreign: seq<T>, stale: nat, fails: bool)

  function Calm<T>(): Move<T> { Move([], 0, false) }

  function FirstMove<T>(script: seq<Move<T>>): Move<T> { if script == [] then Calm() else script[0] }

  function Rest<T>(script: seq<Move<T>>): seq<Move<T>> { if script == [] then [] else script[1..] }

  /** Reads are current and nothing fails: only foreign writes can get in the way. */
  ghost predicate Live<T(!new)>(script: seq<Move<T>>) { forall m :: m in script ==> m.stale == 0 && !m.fails }

  lemma LiveMove<T(!new)>(script: seq<Move<T>>)
    ensures Live(script) ==> FirstMove(script).stale == 0 && !FirstMove(script).fails && Live(Rest(script))
  {
    if script != [] { assert script[0] in script; }
  }

  datatype Answer<T> = Found(version: nat, obj: T) | NotFound | Broken

  datatype Written = Committed | Conflict | Rejected

  // ---------- one object and its surroundings, on values ----------

  /** The committed versions, oldest first (none: not created), and what the rest of the cluster will do. */
  datatype World<T> = World(history: seq<T>, script: seq<Move<T>>)

  /** The world after the next foreign move. */
  function Moved<T>(w: World<T>): World<T> { World(w.history + FirstMove(w.script).foreign, Rest(w.script)) }

  /** What a read answers: a version as old as the move says, an absence if it is older than the object, or an error. */
  function Seen<T>(w: World<T>): (a: Answer<T>)
    ensures a.Found? ==> a.version < |Moved(w).history| && a.obj == Moved(w).history[a.version]
  {
    var m, h := FirstMove(w.script), Moved(w).history;
    if m.fails then Broken
    else if m.stale >= |h| then NotFound
    else Found(|h| - 1 - m.stale, h[|h| - 1 - m.stale])
  }

  /** An update commits when nothing fails and its version is the current one. */
  function Updated<T>(w: World<T>, version: nat, obj: T): (World<T>, Written) {
    var w' := Moved(w);
    if FirstMove(w.script).fails then (w', Rejected)
    else if version + 1 != |w'.history| then (w', Conflict)
    else (w'.(history := w'.history + [obj]), Committed)
  }

  /** A creation commits when nothing fails and no version exists; Conflict stands for AlreadyExists. */
  function Born<T>(w: World<T>, obj: T): (World<T>, Written) {
    var w' := Moved(w);
    if FirstMove(w.script).fails then (w', Rejected)
    else if w'.history != [] then (w', Conflict)
    else (w'.(history := [obj]), Committed)
  }

  class ApiObject<T> {
    var history: seq<T>
    var script: seq<Move<T>>
    ghost var own: seq<nat>  // positions of the versions committed through this object

    function Now(): World<T>
      reads this`history, this`script
    {
      World(history, script)
    }

    constructor (history: seq<T>, script: seq<Move<T>>)
      ensures this.history == history && this.script == script && own == []
    {
      this.history, this.script, this.own := history, script, [];
    }

    /** The next move of the cluster happens. */
    method Interfere() returns (m: Move<T>)
      modifies this`history, this`script
      ensures m == FirstMove(old(script)) && Now() == Moved(old(Now()))
    {
      m := FirstMove(script);
      if script != [] {
        script := script[1..];
      }
      history := history + m.foreign;
    }

    /** A read through the cached client: any version committed so far, or an old absence. */
    method Get() returns (a: Answer<T>)
      modifies this`history, this`script
      ensures Now() == Moved(old(Now())) && a == Seen(old(Now()))
      ensures old(history) <= history
    {
      var m := Interfere();
      if m.fails {
        a := Broken;
      } else if m.stale >= |history| {
        a := NotFound;
      } else {
        a := Found(|history| - 1 - m.stale, history[|history| - 1 - m.stale]);
      }
    }

    /** An update succeeds only on the version that is still current. */
    method Update(version: nat, obj: T) returns (w: Written)
      requires version < |history|
      modifies this
      ensures (Now(), w) == Updated(old(Now()), version, obj)
      ensures old(history) <= history
      ensures w.Committed? ==>
        && history[..|history| - 1] == old(history) && version == |history| - 2
        && history[version + 1] == obj && own == old(own) + [version + 1]
      ensures !w.Committed? ==> own == old(own)
    {
      var m := Interfere();
      if m.fails {
        w := Rejected;
      } else if version != |history| - 1 {
        w := Conflict;
      } else {
        own := own + [|history|];
        history := history + [obj];
        w := Committed;
      }
    }

    /** Creation succeeds only while no version exists. */
    method Create(obj: T) returns (w: Written)
      modifies this
      ensures (Now(), w) == Born(old(Now()), obj)
      ensures old(history) <= history
      ensures w.Committed? ==> old(history) == [] && history == [obj] && own == old(own) + [0]
      ensures w.Conflict? ==> history != []
      ensures !w.Committed? ==> own == old(own)
    {
      var m := Interfere();
      if m.fails {
        w := Rejected;
      } else if history != [] {
        w := Conflict;
      } else {
        own := own + [0];
        history := [obj];
        w := Committed;
      }
    }
  }

  // ---------- the retry, on values ----------

  datatype Retried<T> =
    | Wrote(was: T, now: T)         // the version read by the last attempt and the one it committed
    | Declined(seen: T)             // the closure found nothing to do
    | GaveUp(last: Option<(T, T)>)  // the last attempt's read and the version it failed to commit

  /** The retry from the start of an attempt, `steps` of them left. */
  function Attempt<T>(w: World<T>, mutate: T -> Option<T>, steps: nat, last: Option<(T, T)>): (World<T>, Retried<T>)
    decreases steps, 0
  {
    if steps == 0 then (w, GaveUp(last))
    else
      var a := Seen(w);
      if !a.Found? then (Moved(w), GaveUp(last))
      else
        var next := mutate(a.obj);
        if next.None? then (Moved(w), Declined(a.obj))
        else AttemptWrite(Moved(w), mutate, steps - 1, a.version, a.obj, next.value)
  }

  /** The retry from its update, with `left` further attempts. */
  function AttemptWrite<T>(w: World<T>, mutate: T -> Option<T>, left: nat, version: nat, seen: T, next: T): (World<T>, Retried<T>)
    decreases left, 1
  {
    var (w', c) := Updated(w, version, next);
    match c
    case Committed => (w', Wrote(seen, next))
    case Rejected => (w', GaveUp(Some((seen, next))))
    case Conflict => Attempt(w', mutate, left, Some((seen, next)))
  }

  /**
   An attempt reads a version without fault and updates it without fault; it is still current only if the read was
   not stale and nobody wrote in between, and otherwise a later attempt has to land.
   */
  predicate Lands<T(==)>(script: seq<Move<T>>, len: nat, steps: nat)
    decreases steps
  {
    var read, write := FirstMove(script), FirstMove(Rest(script));
    var len' := len + |read.foreign|;
    && steps > 0 && !read.fails && read.stale < len' && !write.fails
    && ((read.stale == 0 && write.foreign == []) || Lands(Rest(Rest(script)), len' + |write.foreign|, steps - 1))
  }

  /** A retried change that always has something to do is committed exactly when the script lets an attempt land. */
  lemma {:induction false} WroteIffLands<T(!new)>(w: World<T>, mutate: T -> Option<T>, steps: nat, last: Option<(T, T)>)
    requires forall t :: mutate(t).Some?
    ensures Attempt(w, mutate, steps, last).1.Wrote? <==> Lands(w.script, |w.history|, steps)
    decreases steps
  {
    var a, w1 := Seen(w), Moved(w);
    if steps > 0 && a.Found? {
      var next := mutate(a.obj).value;
      var (w2, c) := Updated(w1, a.version, next);
      if c.Conflict? {
        WroteIffLands(w2, mutate, steps - 1, Some((a.obj, next)));
      }
    }
  }

  /** With current reads and no faults it takes a foreign write per attempt to beat the retry. */
  lemma {:induction false} BeatenByWrites<T(!new)>(w: World<T>, mutate: T -> Option<T>, steps: nat, last: Option<(T, T)>)
    ensures var (w', r) := Attempt(w, mutate, steps, last);
      Live(w.script) && w.history != [] && r.GaveUp? ==> |w'.history| >= |w.history| + steps
    decreases steps
  {
    var a, w1 := Seen(w), Moved(w);
    if Live(w.script) && steps > 0 && a.Found? && mutate(a.obj).Some? {
      var next := mutate(a.obj).value;
      var (w2, c) := Updated(w1, a.version, next);
      assert Live(w1.script) && Live(w2.script);
      if c.Conflict? {
        BeatenByWrites(w2, mutate, steps - 1, Some((a.obj, next)));
      }
    }
  }

  /** A retry that found nothing to do saw a committed version that says so. */
  lemma {:induction false} DeclinedIsSeen<T>(w: World<T>, mutate: T -> Option<T>, steps: nat, last: Option<(T, T)>)
    ensures var (w', r) := Attempt(w, mutate, steps, last);
      w.history <= w'.history && (r.Declined? ==> r.seen in w'.history && mutate(r.seen) == None)
    decreases steps
  {
    var a, w1 := Seen(w), Moved(w);
    if steps > 0 && a.Found? && mutate(a.obj).Some? {
      var next := mutate(a.obj).value;
      var (w2, c) := Updated(w1, a.version, next);
      if c.Conflict? { DeclinedIsSeen(w2, mutate, steps - 1, Some((a.obj, next))); }
    }
  }

  // ---------- the retry ----------

  /** The last version is our single write, computed from the version directly before it. */
  ghost predicate WroteLast<T>(mutate: T -> Option<T>, was: T, now: T, history: seq<T>) {
    && |history| >= 2 && history[|history| - 2] == was && history[|history| - 1] == now
    && mutate(was) == Some(now)
  }

  /**
   retry.RetryOnConflict around get, mutate, update: at most `steps` attempts, each on a fresh
   read; a conflict starts the next attempt, any other error ends the loop.
   */
  method RetryOnConflict<T(!new)>(o: ApiObject<T>, mutate: T -> Option<T>, steps: nat) returns (r: Retried<T>)
    modifies o
    ensures (o.Now(), r) == Attempt(old(o.Now()), mutate, steps, None)
    ensures old(o.history) <= o.history
    ensures r.Wrote? ==> WroteLast(mutate, r.was, r.now, o.history) && o.own == old(o.own) + [|o.history| - 1]
    ensures !r.Wrote? ==> o.own == old(o.own)
    ensures r.Declined? ==> r.seen in o.history && mutate(r.seen) == None
    ensures r.GaveUp? && r.last.Some? ==> mutate(r.last.value.0) == Some(r.last.value.1)
    ensures old(Live(o.script)) && old(o.history) != [] && r.GaveUp? ==> |o.history| >= |old(o.history)| + steps
  {
    hide Live, Seen, Updated, Moved;
    BeatenByWrites(o.Now(), mutate, steps, None);
    var last := None;
    for attempt := 0 to steps
      invariant old(o.history) <= o.history && o.own == old(o.own)
      invariant Attempt(old(o.Now()), mutate, steps, None) == Attempt(o.Now(), mutate, steps - attempt, last)
      invariant last.Some? ==> mutate(last.value.0) == Some(last.value.1)
    {
      var a := o.Get();
      if !a.Found? { return GaveUp(last); }
      var next := mutate(a.obj);
      if next.None? { return Declined(a.obj); }
      var w := o.Update(a.version, next.value);
      if w.Committed? { return Wrote(a.obj, next.value); }
      last := Some((a.obj, next.value));
      if w.Rejected? { return GaveUp(last); }
    }
    return GaveUp(last);
  }

  /**
   patchDeploymentTemplate and its StatefulSet and DaemonSet twins.  A successful patch commits mutate of the
   version directly before it, once, and describes that very change; a failed one leaves nothing of its own.
   */
  method PatchTemplate<T(!new, ==)>(o: ApiObject<T>, mutate: T -> T, describe: (T, T) -> string, steps: nat)
    returns (detail: string, ok: bool)
    modifies o
    ensures ok <==> Lands(old(o.script), |old(o.history)|, steps)
    ensures old(o.history) <= o.history
    ensures ok ==>
      && |o.history| >= 2 && o.own == old(o.own) + [|o.history| - 1]
      && o.history[|o.history| - 1] == mutate(o.history[|o.history| - 2])
      && detail == describe(o.history[|o.history| - 2], o.history[|o.history| - 1])
    ensures !ok ==> o.own == old(o.own)
    ensures old(Live(o.script)) && old(o.history) != [] && !ok ==> |o.history| >= |old(o.history)| + steps
  {
    var change := (t: T) => Some(mutate(t));
    WroteIffLands(o.Now(), change, steps, None);
    var r := RetryOnConflict(o, change, steps);
    match r
    case Wrote(was, now) => detail, ok := describe(was, now), true;
    case Declined(_) => detail, ok := "", false;
    case GaveUp(last) => detail, ok := if last.Some? then describe(last.value.0, last.value.1) else "", false;
  }
}
