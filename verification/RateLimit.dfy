/**
 The per-namespace sliding-window limiter of internal/selfheal/ratelimit.go.

 `RateLimiter` is the class with its in-place compaction.  `Ledger` is the same limiter on
 values, carried together with the complete log of grants that the class forgets, so that
 claims about whole runs can be stated.
 */
module RateLimit {
  import opened Common

  // ---------- the decision of one call, on values ----------

  /** The entries newer than `cutoff`, in order. */
  function Kept(h: seq<int>, cutoff: int): seq<int> {
    if |h| == 0 then []
    else
      var rest := Kept(h[..|h| - 1], cutoff);
      if h[|h| - 1] > cutoff then rest + [h[|h| - 1]] else rest
  }

  function Entries(m: map<string, seq<int>>, ns: string): seq<int> {
    if ns in m then m[ns] else []
  }

  /** What one `reserve` call leaves of its namespace's entries, and its answer. */
  function ReserveOne(h: seq<int>, now: int, window: int, cap: int): (seq<int>, bool) {
    var kept := Kept(h, now - window);
    if |kept| >= cap then (kept, false) else (kept + [now], true)
  }

  function ReserveStep(m: map<string, seq<int>>, ns: string, now: int, window: int, cap: int): (map<string, seq<int>>, bool) {
    var (h, ok) := ReserveOne(Entries(m, ns), now, window, cap);
    (m[ns := h], ok)
  }

  lemma {:induction false} KeptTwice(h: seq<int>, a: int, b: int)
    requires a <= b
    ensures Kept(Kept(h, a), b) == Kept(h, b)
  {
    if |h| > 0 {
      KeptTwice(h[..|h| - 1], a, b);
      var rest := Kept(h[..|h| - 1], a);
      if h[|h| - 1] > a {
        assert (rest + [h[|h| - 1]])[..|rest|] == rest;
      }
    }
  }

  lemma KeptSnoc(h: seq<int>, x: int, cutoff: int)
    ensures Kept(h + [x], cutoff) == Kept(h, cutoff) + (if x > cutoff then [x] else [])
  {
    assert (h + [x])[..|h|] == h;
  }

  /** `Kept` is a filter: it keeps exactly the newer entries, with their multiplicity. */
  lemma {:induction false} KeptIsFilter(h: seq<int>, cutoff: int, t: int)
    ensures multiset(Kept(h, cutoff))[t] == if t > cutoff then multiset(h)[t] else 0
  {
    if |h| > 0 {
      KeptIsFilter(h[..|h| - 1], cutoff, t);
      assert h == h[..|h| - 1] + [h[|h| - 1]];
    }
  }

  // ---------- the class ----------

  /** A Go slice: a backing array and a length. */
  datatype Slice = Slice(buf: array<int>, len: nat)

  class RateLimiter {
    const window: int
    var history: map<string, Slice>

    ghost predicate Valid()
      reads this
    {
      && (forall ns :: ns in history ==> history[ns].len <= history[ns].buf.Length)
      && (forall a, b :: a in history && b in history && a != b ==> history[a].buf != history[b].buf)
    }

    /** The slice content of a namespace; an absent key reads as the empty slice. */
    ghost function Contents(ns: string): seq<int>
      requires Valid()
      reads this, if ns in history then {history[ns].buf} else {}
    {
      if ns in history then history[ns].buf[..history[ns].len] else []
    }

    constructor (window: int)
      ensures Valid() && history == map[] && this.window == window
    {
      this.window := window;
      history := map[];
    }

    /** Moves the entries newer than `cutoff` to the front of their own backing array. */
    method Compact(s: Slice, cutoff: int) returns (k: nat)
      requires s.len <= s.buf.Length
      modifies s.buf
      ensures k <= s.len
      ensures s.buf[..k] == Kept(old(s.buf[..s.len]), cutoff)
    {
      k := 0;
      var i := 0;
      ghost var was := s.buf[..];
      while i < s.len
        invariant k <= i <= s.len
        invariant s.buf[..k] == Kept(was[..i], cutoff)
        invariant s.buf[i..] == was[i..]
      {
        var t := s.buf[i];
        assert t == was[i] by { assert s.buf[i..][0] == was[i..][0]; }
        assert was[..i + 1] == was[..i] + [t];
        KeptSnoc(was[..i], t, cutoff);
        assert was[i + 1..] == was[i..][1..];
        if t > cutoff {
          s.buf[k] := t;
          k := k + 1;
        }
        i := i + 1;
      }
      assert was[..s.len] == old(s.buf[..s.len]);
    }

    /** Go's append: in place while the capacity lasts, otherwise into a larger copy. */
    method Append(s: Slice, x: int) returns (s': Slice)
      requires s.len <= s.buf.Length
      modifies s.buf
      ensures s'.buf == s.buf || fresh(s'.buf)
      ensures s'.len == s.len + 1 <= s'.buf.Length
      ensures s'.buf[..s'.len] == old(s.buf[..s.len]) + [x]
    {
      var target := s.buf;
      if s.len == s.buf.Length {
        target := new int[2 * s.len + 1];
        forall i | 0 <= i < s.len { target[i] := s.buf[i]; }
      }
      assert target[..s.len] == s.buf[..s.len];
      target[s.len] := x;
      s' := Slice(target, s.len + 1);
    }

    method Reserve(ns: string, cap: int, now: int) returns (ok: bool)
      requires Valid()
      modifies this`history, if ns in history then {history[ns].buf} else {}
      ensures Valid() && history.Keys == old(history.Keys) + {ns}
      ensures fresh(history[ns].buf) || (ns in old(history) && history[ns].buf == old(history[ns].buf))
      ensures (Contents(ns), ok) == ReserveOne(old(Contents(ns)), now, window, cap)
      ensures forall other :: other in old(history) && other != ns ==>
        history[other] == old(history[other]) && Contents(other) == old(Contents(other))
    {
      var s;
      if ns in history {
        s := history[ns];
      } else {
        var nothing := new int[0];
        s := Slice(nothing, 0);
      }
      assert s.buf[..s.len] == old(Contents(ns));
      var k := Compact(s, now - window);
      s := Slice(s.buf, k);
      ok := k < cap;
      if ok {
        s := Append(s, now);
      }
      history := history[ns := s];
    }
  }

  // ---------- whole runs ----------

  datatype Grant = Grant(ns: string, time: int, cap: int)

  /** The limiter's own memory, the complete log of grants, and the last clock reading. */
  datatype Ledger = Ledger(memory: map<string, seq<int>>, log: seq<Grant>, clock: int)

  function EmptyLedger(clock: int): Ledger { Ledger(map[], [], clock) }

  /** One call at the ledger's current clock reading. */
  function Call(l: Ledger, ns: string, window: int, cap: int): (Ledger, bool) {
    var (m, ok) := ReserveStep(l.memory, ns, l.clock, window, cap);
    (Ledger(m, if ok then l.log + [Grant(ns, l.clock, cap)] else l.log, l.clock), ok)
  }

  /** Every grant ever made to a namespace. */
  function Times(log: seq<Grant>, ns: string): seq<int> {
    if |log| == 0 then []
    else
      var rest := Times(log[..|log| - 1], ns);
      if log[|log| - 1].ns == ns then rest + [log[|log| - 1].time] else rest
  }

  predicate InWindow(g: Grant, ns: string, lo: int, hi: int) {
    g.ns == ns && lo < g.time <= hi
  }

  /** How many grants of `ns` were made in (lo, hi]. */
  function Count(log: seq<Grant>, ns: string, lo: int, hi: int): nat {
    if |log| == 0 then 0
    else Count(log[..|log| - 1], ns, lo, hi) + (if InWindow(log[|log| - 1], ns, lo, hi) then 1 else 0)
  }

  /** The cap under which the last of those grants was made. */
  function LastCap(log: seq<Grant>, ns: string, lo: int, hi: int): Option<int> {
    if |log| == 0 then None
    else if InWindow(log[|log| - 1], ns, lo, hi) then Some(log[|log| - 1].cap)
    else LastCap(log[..|log| - 1], ns, lo, hi)
  }

  /** The memory answers every question about a cutoff from `lo` on as the full log would. */
  ghost predicate Agrees(memory: seq<int>, full: seq<int>, lo: int) {
    forall c :: c >= lo ==> Kept(memory, c) == Kept(full, c)
  }

  /** In any window the number of grants is at most the cap in force at its last grant. */
  ghost predicate WindowSafe(log: seq<Grant>, window: int) {
    forall ns, t :: WindowBounded(log, ns, t, window)
  }

  ghost predicate WindowBounded(log: seq<Grant>, ns: string, t: int, window: int) {
    Count(log, ns, t - window, t) == 0
    || (LastCap(log, ns, t - window, t).Some? && Count(log, ns, t - window, t) <= LastCap(log, ns, t - window, t).value)
  }

  ghost predicate Ordered(log: seq<Grant>, clock: int) {
    && (forall i, j :: 0 <= i <= j < |log| ==> log[i].time <= log[j].time)
    && (forall i :: 0 <= i < |log| ==> log[i].time <= clock)
  }

  ghost predicate Faithful(memory: map<string, seq<int>>, log: seq<Grant>, lo: int) {
    forall ns :: Agrees(Entries(memory, ns), Times(log, ns), lo)
  }

  ghost predicate LedgerInv(l: Ledger, window: int) {
    && window > 0
    && Ordered(l.log, l.clock)
    && Faithful(l.memory, l.log, l.clock - window)
    && WindowSafe(l.log, window)
  }

  lemma TimesSnoc(log: seq<Grant>, g: Grant, ns: string)
    ensures Times(log + [g], ns) == Times(log, ns) + (if g.ns == ns then [g.time] else [])
  {
    assert (log + [g])[..|log|] == log;
  }

  /** Counting the kept entries of the full log counts the grants of the window. */
  lemma {:induction false} KeptCountsWindow(log: seq<Grant>, ns: string, lo: int, hi: int)
    requires forall i :: 0 <= i < |log| ==> log[i].time <= hi
    ensures |Kept(Times(log, ns), lo)| == Count(log, ns, lo, hi)
  {
    if |log| > 0 {
      var front, g := log[..|log| - 1], log[|log| - 1];
      KeptCountsWindow(front, ns, lo, hi);
      if g.ns == ns { KeptSnoc(Times(front, ns), g.time, lo); }
    }
  }

  /** A window that starts earlier and ends after the last grant holds at least as many. */
  lemma {:induction false} CountWidens(log: seq<Grant>, ns: string, lo: int, hi: int, lo': int, hi': int)
    requires lo' <= lo
    requires forall i :: 0 <= i < |log| ==> log[i].time <= hi'
    ensures Count(log, ns, lo, hi) <= Count(log, ns, lo', hi')
  {
    if |log| > 0 { CountWidens(log[..|log| - 1], ns, lo, hi, lo', hi'); }
  }

  /** The pruned limiter answers as the complete log would. */
  lemma PrunedAnswersAsFull(l: Ledger, ns: string, window: int, cap: int)
    requires LedgerInv(l, window)
    ensures Call(l, ns, window, cap).1 <==> |Kept(Times(l.log, ns), l.clock - window)| < cap
    ensures Call(l, ns, window, cap).1 <==> Count(l.log, ns, l.clock - window, l.clock) < cap
  {
    assert Agrees(Entries(l.memory, ns), Times(l.log, ns), l.clock - window);
    KeptCountsWindow(l.log, ns, l.clock - window, l.clock);
  }

  lemma AgreementKept(l: Ledger, ns: string, window: int, cap: int, other: string)
    requires LedgerInv(l, window)
    ensures var l' := Call(l, ns, window, cap).0;
      Agrees(Entries(l'.memory, other), Times(l'.log, other), l.clock - window)
  {
    var (l', ok) := Call(l, ns, window, cap);
    var lo := l.clock - window;
    assert Agrees(Entries(l.memory, other), Times(l.log, other), lo);
    if ok { TimesSnoc(l.log, Grant(ns, l.clock, cap), other); }
    if other == ns {
      var entries := Entries(l.memory, ns);
      forall c | c >= lo
        ensures Kept(Entries(l'.memory, ns), c) == Kept(Times(l'.log, ns), c)
      {
        KeptTwice(entries, lo, c);
        if ok {
          KeptSnoc(Kept(entries, lo), l.clock, c);
          KeptSnoc(Times(l.log, ns), l.clock, c);
        }
      }
    }
  }

  lemma SafetyKept(log: seq<Grant>, g: Grant, window: int, other: string, t: int)
    requires forall i :: 0 <= i < |log| ==> log[i].time <= g.time
    requires Count(log, g.ns, g.time - window, g.time) < g.cap
    requires WindowBounded(log, other, t, window)
    ensures WindowBounded(log + [g], other, t, window)
  {
    assert (log + [g])[..|log|] == log;
    if InWindow(g, other, t - window, t) {
      CountWidens(log, other, t - window, t, g.time - window, g.time);
    }
  }

  /** One call keeps every claim about the whole run. */
  lemma CallKeepsInv(l: Ledger, ns: string, window: int, cap: int)
    requires LedgerInv(l, window)
    ensures LedgerInv(Call(l, ns, window, cap).0, window)
  {
    var (l', ok) := Call(l, ns, window, cap);
    forall other { AgreementKept(l, ns, window, cap, other); }
    if ok {
      forall other, t
        ensures WindowBounded(l'.log, other, t, window)
      {
        PrunedAnswersAsFull(l, ns, window, cap);
        assert WindowBounded(l.log, other, t, window);
        SafetyKept(l.log, Grant(ns, l.clock, cap), window, other, t);
      }
    }
  }

  lemma TickKeepsInv(l: Ledger, wait: nat, window: int)
    requires LedgerInv(l, window)
    ensures LedgerInv(l.(clock := l.clock + wait), window)
  {
    var l' := l.(clock := l.clock + wait);
    forall ns ensures Agrees(Entries(l'.memory, ns), Times(l'.log, ns), l'.clock - window) {
      assert Agrees(Entries(l.memory, ns), Times(l.log, ns), l.clock - window);
    }
  }

  /** Any sequence of calls, each at a clock reading not before the previous one. */
  datatype Request = Request(ns: string, cap: int, wait: nat)

  function ServeOne(l: Ledger, r: Request, window: int): Ledger {
    Call(l.(clock := l.clock + r.wait), r.ns, window, r.cap).0
  }

  function Serve(l: Ledger, calls: seq<Request>, window: int): Ledger {
    if |calls| == 0 then l
    else ServeOne(Serve(l, calls[..|calls| - 1], window), calls[|calls| - 1], window)
  }

  lemma ServeOneKeepsInv(l: Ledger, r: Request, window: int)
    requires LedgerInv(l, window)
    ensures LedgerInv(ServeOne(l, r, window), window)
  {
    var later := l.(clock := l.clock + r.wait);
    TickKeepsInv(l, r.wait, window);
    CallKeepsInv(later, r.ns, window, r.cap);
    assert ServeOne(l, r, window) == Call(later, r.ns, window, r.cap).0;
  }

  lemma EmptyLedgerInv(start: int, window: int)
    requires window > 0
    ensures LedgerInv(EmptyLedger(start), window)
  {
  }

  lemma {:induction false} ServeKeepsInv(start: int, calls: seq<Request>, window: int)
    requires window > 0
    ensures LedgerInv(Serve(EmptyLedger(start), calls, window), window)
  {
    if |calls| == 0 {
      EmptyLedgerInv(start, window);
    } else {
      ServeKeepsInv(start, calls[..|calls| - 1], window);
      ServeOneKeepsInv(Serve(EmptyLedger(start), calls[..|calls| - 1], window), calls[|calls| - 1], window);
    }
  }

  ghost predicate CapsWithin(log: seq<Grant>, m: int) {
    forall g :: g in log ==> g.cap <= m
  }

  lemma {:induction false} GrantsCarryRequestedCaps(start: int, calls: seq<Request>, window: int, m: int)
    requires forall c :: c in calls ==> c.cap <= m
    ensures CapsWithin(Serve(EmptyLedger(start), calls, window).log, m)
  {
    if |calls| > 0 {
      assert calls[|calls| - 1] in calls;
      GrantsCarryRequestedCaps(start, calls[..|calls| - 1], window, m);
    }
  }

  lemma {:induction false} LastCapWithin(log: seq<Grant>, ns: string, lo: int, hi: int, m: int)
    requires CapsWithin(log, m)
    ensures LastCap(log, ns, lo, hi).Some? ==> LastCap(log, ns, lo, hi).value <= m
  {
    if |log| > 0 {
      assert log[|log| - 1] in log;
      LastCapWithin(log[..|log| - 1], ns, lo, hi, m);
    }
  }

  /** However the cap changes, a window holds no more grants than the cap of its last grant. */
  lemma SlidingWindowSafety(start: int, calls: seq<Request>, window: int, ns: string, t: int)
    requires window > 0
    ensures WindowBounded(Serve(EmptyLedger(start), calls, window).log, ns, t, window)
  {
    ServeKeepsInv(start, calls, window);
  }

  /** With caps that never exceed m, no window (t - window, t] holds more than m grants. */
  lemma FixedCapSafety(start: int, calls: seq<Request>, window: int, m: nat, ns: string, t: int)
    requires window > 0
    requires forall c :: c in calls ==> c.cap <= m
    ensures Count(Serve(EmptyLedger(start), calls, window).log, ns, t - window, t) <= m
  {
    SlidingWindowSafety(start, calls, window, ns, t);
    GrantsCarryRequestedCaps(start, calls, window, m);
    LastCapWithin(Serve(EmptyLedger(start), calls, window).log, ns, t - window, t, m);
  }

  /** The ledger after `calls`, when the clock has moved on by `wait`. */
  function ServeThenWait(start: int, calls: seq<Request>, window: int, wait: nat): Ledger {
    var l := Serve(EmptyLedger(start), calls, window);
    l.(clock := l.clock + wait)
  }

  /** Every answer in a run is the answer computed from the complete log of grants. */
  lemma RunRefinesFullLog(start: int, calls: seq<Request>, window: int, next: Request)
    requires window > 0
    ensures var l := ServeThenWait(start, calls, window, next.wait);
      Call(l, next.ns, window, next.cap).1 <==> |Kept(Times(l.log, next.ns), l.clock - window)| < next.cap
  {
    ServeKeepsInv(start, calls, window);
    TickKeepsInv(Serve(EmptyLedger(start), calls, window), next.wait, window);
    PrunedAnswersAsFull(ServeThenWait(start, calls, window, next.wait), next.ns, window, next.cap);
  }
}
