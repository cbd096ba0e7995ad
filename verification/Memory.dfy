/** The memory bump: factor parsing, scaling, rounding, clamping, and its application to every
    container (internal/selfheal/actions.go:284-336).  Quantities are byte counts. */
module Memory {
  import opened Common

  const MIB: nat := 1024 * 1024

  /** int64(float64(q) * factor), over exact arithmetic. */
  function Scale(q: nat, factor: real): nat
    requires factor > 1.0
  {
    ScaleBounds(q, factor);
    (q as real * factor).Floor
  }

  lemma ScaleBounds(q: nat, factor: real)
    requires factor > 1.0
    ensures q <= (q as real * factor).Floor
  {
    MulMonotone(q as real, 1.0, factor);
  }

  lemma MulMonotone(c: real, a: real, b: real)
    requires c >= 0.0 && a <= b
    ensures c * a <= c * b
  {
  }

  function RoundUpToMiB(n: nat): nat {
    if n % MIB == 0 then n else (n / MIB + 1) * MIB
  }

  function ScaledQuantity(q: nat, factor: real, cap: Option<nat>): nat
    requires factor > 1.0
  {
    var out := RoundUpToMiB(Scale(q, factor));
    if cap.Some? && out > cap.value then cap.value else out
  }

  /** The least multiple of a MiB that is at least n. */
  lemma RoundUpSpec(n: nat)
    ensures RoundUpToMiB(n) % MIB == 0 && n <= RoundUpToMiB(n) < n + MIB
  {
    var k := n / MIB;
    assert n == k * MIB + n % MIB;
    assert (k + 1) * MIB == k * MIB + MIB;
    MultipleMod(k + 1);
  }

  lemma MultipleMod(k: nat)
    ensures (k * MIB) % MIB == 0
  {
  }

  lemma RoundUpMonotone(m: nat, n: nat)
    requires m <= n
    ensures RoundUpToMiB(m) <= RoundUpToMiB(n)
  {
    RoundUpSpec(m);
    RoundUpSpec(n);
    if RoundUpToMiB(n) < RoundUpToMiB(m) { MultiplesApart(RoundUpToMiB(n), RoundUpToMiB(m)); }
  }

  lemma MultiplesApart(a: nat, b: nat)
    requires a % MIB == 0 && b % MIB == 0 && a < b
    ensures a + MIB <= b
  {
    assert a == a / MIB * MIB && b == b / MIB * MIB;
  }

  lemma ScaleMonotone(m: nat, n: nat, factor: real)
    requires factor > 1.0 && m <= n
    ensures Scale(m, factor) <= Scale(n, factor)
  {
    MulMonotone(factor, m as real, n as real);
  }

  /** The bump is monotone in the current value, cap or no cap, even a cap below the current value. */
  lemma ScaledMonotone(m: nat, n: nat, factor: real, cap: Option<nat>)
    requires factor > 1.0 && m <= n
    ensures ScaledQuantity(m, factor, cap) <= ScaledQuantity(n, factor, cap)
  {
    ScaleMonotone(m, n, factor);
    RoundUpMonotone(Scale(m, factor), Scale(n, factor));
  }

  /** Uncapped results are MiB multiples within one MiB above the scaled value; capped ones never exceed the cap. */
  lemma ScaledRange(q: nat, factor: real, cap: nat)
    requires factor > 1.0
    ensures var s, out := Scale(q, factor), ScaledQuantity(q, factor, None);
      out % MIB == 0 && s <= out < s + MIB
    ensures ScaledQuantity(q, factor, Some(cap)) <= cap
  {
    RoundUpSpec(Scale(q, factor));
  }

  /** A whole number of MiB. */
  predicate WholeMiB(n: nat) { n % 1048576 == 0 }

  /**
   What one bump makes of a value: the least whole number of MiB that is not below the product rounded down, or the
   cap if that is lower.
   */
  ghost predicate IsBump(q: nat, out: nat, factor: real, cap: Option<nat>) {
    var product := (q as real * factor).Floor;
    && (forall m: nat :: WholeMiB(m) && product <= m ==> out <= m)
    && match cap
       case None => WholeMiB(out) && product <= out
       case Some(c) => out <= c && (out == c || (WholeMiB(out) && product <= out))
  }

  /** The computation meets that description, and nothing else does. */
  lemma ScaledExact(q: nat, factor: real, cap: Option<nat>, out: nat)
    requires factor > 1.0
    ensures out == ScaledQuantity(q, factor, cap) <==> IsBump(q, out, factor, cap)
  {
    var product := (q as real * factor).Floor;
    ScaleBounds(q, factor);
    LeastMiB(product);
    assert WholeMiB(RoundUpToMiB(product));
  }

  lemma LeastMiB(n: nat)
    ensures WholeMiB(RoundUpToMiB(n)) && n <= RoundUpToMiB(n)
    ensures forall m: nat :: WholeMiB(m) && n <= m ==> RoundUpToMiB(n) <= m
  {
    RoundUpSpec(n);
    forall m: nat | WholeMiB(m) && n <= m ensures RoundUpToMiB(n) <= m {
      if m < RoundUpToMiB(n) { MultiplesApart(m, RoundUpToMiB(n)); }
    }
  }

  /** The exact effect of a cap: it lowers memory precisely when it lies below the current value. */
  lemma CapLowersIff(q: nat, factor: real, cap: nat)
    requires factor > 1.0
    ensures ScaledQuantity(q, factor, Some(cap)) < q <==> cap < q
  {
    ScaleBounds(q, factor);
    RoundUpSpec(Scale(q, factor));
  }

  // ---------- repeated bumps ----------

  function Bumps(q: nat, factor: real, cap: nat, n: nat): nat
    requires factor > 1.0
  {
    if n == 0 then q else ScaledQuantity(Bumps(q, factor, cap, n - 1), factor, Some(cap))
  }

  /** The factor still gains at least a byte at any value where it did so lower down. */
  lemma GainPersists(q: nat, q': nat, factor: real)
    requires factor > 1.0 && q <= q' && Scale(q, factor) > q
    ensures Scale(q', factor) > q'
  {
    MulMonotone(factor - 1.0, q as real, q' as real);
    assert q as real * factor == q as real + q as real * (factor - 1.0);
    assert q' as real * factor == q' as real + q' as real * (factor - 1.0);
    assert q as real * (factor - 1.0) >= 1.0;
  }

  /** From a MiB multiple below the cap a bump that gains anything gains a whole MiB or hits the cap. */
  lemma BumpGains(q: nat, factor: real, cap: nat)
    requires factor > 1.0 && q % MIB == 0 && q <= cap && Scale(q, factor) > q
    ensures var out := ScaledQuantity(q, factor, Some(cap));
      out == cap || (out % MIB == 0 && q + MIB <= out < cap)
  {
    RoundUpSpec(Scale(q, factor));
    MultiplesApart(q, RoundUpToMiB(Scale(q, factor)));
  }

  lemma CapIsFixed(factor: real, cap: nat)
    requires factor > 1.0
    ensures ScaledQuantity(cap, factor, Some(cap)) == cap
  {
    ScaleBounds(cap, factor);
    RoundUpSpec(Scale(cap, factor));
  }

  lemma {:induction false} BumpsProgress(q: nat, factor: real, cap: nat, n: nat)
    requires factor > 1.0 && q % MIB == 0 && q <= cap && Scale(q, factor) > q
    ensures var b := Bumps(q, factor, cap, n);
      b == cap || (b % MIB == 0 && q + n * MIB <= b < cap)
  {
    if n > 0 {
      BumpsProgress(q, factor, cap, n - 1);
      var b := Bumps(q, factor, cap, n - 1);
      if b == cap {
        CapIsFixed(factor, cap);
      } else {
        GainPersists(q, b, factor);
        BumpGains(b, factor, cap);
        assert n * MIB == (n - 1) * MIB + MIB;
      }
    }
  }

  /** A factor too small to gain a byte leaves a MiB multiple where it is, for ever. */
  lemma {:induction false} BumpsStuck(q: nat, factor: real, cap: nat, n: nat)
    requires factor > 1.0 && q % MIB == 0 && q <= cap && Scale(q, factor) == q
    ensures Bumps(q, factor, cap, n) == q
  {
    if n > 0 { BumpsStuck(q, factor, cap, n - 1); }
  }

  lemma {:induction false} BumpsNeverDecrease(q: nat, factor: real, cap: nat, n: nat)
    requires factor > 1.0 && q <= cap
    ensures q <= Bumps(q, factor, cap, n) <= cap
    ensures Bumps(q, factor, cap, n) <= Bumps(q, factor, cap, n + 1)
  {
    if n > 0 { BumpsNeverDecrease(q, factor, cap, n - 1); }
    CapLowersIff(Bumps(q, factor, cap, n), factor, cap);
  }

  /**
   Repeated bumps of a MiB multiple within its cap reach the cap within floor((cap - q) / MiB) + 1 steps and
   stay there, exactly when they start there or the factor gains at least one byte on q.
   */
  lemma BumpConverges(q: nat, factor: real, cap: nat, n: nat)
    requires factor > 1.0 && q % MIB == 0 && q <= cap && n >= (cap - q) / MIB + 1
    ensures Bumps(q, factor, cap, n) == cap <==> q == cap || Scale(q, factor) > q
  {
    ScaleBounds(q, factor);
    if Scale(q, factor) > q {
      BumpsProgress(q, factor, cap, n);
      var gap := (cap - q) / MIB;
      assert gap * MIB <= cap - q < (gap + 1) * MIB;
      assert n * MIB >= (gap + 1) * MIB;
    } else {
      BumpsStuck(q, factor, cap, n);
    }
  }

  // ---------- pod specs ----------

  type ResourceList = map<string, nat>

  /** None stands for a nil map. */
  datatype Container = Container(name: string, limits: Option<ResourceList>, requests: Option<ResourceList>)

  const MEMORY_KEY := "memory"

  function BumpList(l: ResourceList, factor: real, cap: Option<nat>): ResourceList
    requires factor > 1.0
  {
    if MEMORY_KEY in l then l[MEMORY_KEY := ScaledQuantity(l[MEMORY_KEY], factor, cap)] else l
  }

  function BumpContainer(c: Container, factor: real, cap: Option<nat>): Container
    requires factor > 1.0
  {
    Container(c.name, Some(BumpList(c.limits.GetOr(map[]), factor, cap)),
              if c.requests.Some? then Some(BumpList(c.requests.value, factor, cap)) else None)
  }

  /** Resource by resource: memory is bumped, everything else is as it was, nothing comes or goes. */
  ghost predicate ListBumped(was: ResourceList, now: ResourceList, factor: real, cap: Option<nat>) {
    && now.Keys == was.Keys
    && (forall k :: k in was && k != "memory" ==> now[k] == was[k])
    && ("memory" in was ==> IsBump(was["memory"], now["memory"], factor, cap))
  }

  /** A container keeps its name; a missing list of limits becomes an empty one, of requests stays missing. */
  ghost predicate ContainerBumped(was: Container, now: Container, factor: real, cap: Option<nat>) {
    && now.name == was.name
    && now.limits.Some? && ListBumped(if was.limits.Some? then was.limits.value else map[], now.limits.value, factor, cap)
    && (now.requests.Some? <==> was.requests.Some?)
    && (was.requests.Some? ==> ListBumped(was.requests.value, now.requests.value, factor, cap))
  }

  lemma BumpListExact(l: ResourceList, factor: real, cap: Option<nat>)
    requires factor > 1.0
    ensures ListBumped(l, BumpList(l, factor, cap), factor, cap)
  {
    if MEMORY_KEY in l { ScaledExact(l[MEMORY_KEY], factor, cap, ScaledQuantity(l[MEMORY_KEY], factor, cap)); }
    hide IsBump, ScaledQuantity;
  }

  lemma BumpContainerExact(c: Container, factor: real, cap: Option<nat>)
    requires factor > 1.0
    ensures ContainerBumped(c, BumpContainer(c, factor, cap), factor, cap)
  {
    hide ListBumped, BumpList;
    BumpListExact(c.limits.GetOr(map[]), factor, cap);
    if c.requests.Some? { BumpListExact(c.requests.value, factor, cap); }
  }

  function BumpAll(cs: seq<Container>, factor: real, cap: Option<nat>): seq<Container>
    requires factor > 1.0
  {
    seq(|cs|, i requires 0 <= i < |cs| => BumpContainer(cs[i], factor, cap))
  }

  method BumpPodSpecMemory(containers: array<Container>, factor: real, cap: Option<nat>)
    requires factor > 1.0
    modifies containers
    ensures containers[..] == BumpAll(old(containers[..]), factor, cap)
    ensures forall i :: 0 <= i < containers.Length ==> ContainerBumped(old(containers[i]), containers[i], factor, cap)
  {
    for i := 0 to containers.Length
      invariant forall j :: 0 <= j < i ==> containers[j] == BumpContainer(old(containers[j]), factor, cap)
      invariant forall j :: i <= j < containers.Length ==> containers[j] == old(containers[j])
    {
      var c := containers[i];
      if c.limits.None? {
        c := c.(limits := Some(map[]));
      }
      if MEMORY_KEY in c.limits.value {
        c := c.(limits := Some(c.limits.value[MEMORY_KEY := ScaledQuantity(c.limits.value[MEMORY_KEY], factor, cap)]));
      }
      if c.requests.Some? {
        if MEMORY_KEY in c.requests.value {
          c := c.(requests := Some(c.requests.value[MEMORY_KEY := ScaledQuantity(c.requests.value[MEMORY_KEY], factor, cap)]));
        }
      }
      containers[i] := c;
    }
    forall i | 0 <= i < containers.Length ensures ContainerBumped(old(containers[i]), containers[i], factor, cap) {
      BumpContainerExact(old(containers[i]), factor, cap);
    }
  }

  function MemoryOf(l: Option<ResourceList>): Option<nat> {
    if l.Some? && MEMORY_KEY in l.value then Some(l.value[MEMORY_KEY]) else None
  }

  predicate RequestWithinLimit(c: Container) {
    MemoryOf(c.requests).Some? && MemoryOf(c.limits).Some? ==> MemoryOf(c.requests).value <= MemoryOf(c.limits).value
  }

  /** A bumped container keeps request <= limit, gains no memory entry, and keeps every other resource. */
  lemma BumpKeepsContainer(c: Container, factor: real, cap: Option<nat>, other: string)
    requires factor > 1.0 && other != MEMORY_KEY
    ensures var c' := BumpContainer(c, factor, cap);
      && (RequestWithinLimit(c) ==> RequestWithinLimit(c'))
      && (MemoryOf(c'.limits).Some? <==> MemoryOf(c.limits).Some?)
      && (MemoryOf(c'.requests).Some? <==> MemoryOf(c.requests).Some?)
      && (other in c'.limits.value <==> c.limits.Some? && other in c.limits.value)
      && (other in c'.limits.value ==> c'.limits.value[other] == c.limits.value[other])
      && (c'.requests.Some? <==> c.requests.Some?)
      && (c.requests.Some? ==> (other in c'.requests.value <==> other in c.requests.value))
      && (c.requests.Some? && other in c.requests.value ==> c'.requests.value[other] == c.requests.value[other])
  {
    var r, l := MemoryOf(c.requests), MemoryOf(c.limits);
    if r.Some? && l.Some? && r.value <= l.value {
      ScaledMonotone(r.value, l.value, factor, cap);
    }
  }

  /** The containers after n successful bumps. */
  function BumpTimes(cs: seq<Container>, factor: real, cap: nat, n: nat): (r: seq<Container>)
    requires factor > 1.0
    ensures |r| == |cs|
  {
    if n == 0 then cs else BumpAll(BumpTimes(cs, factor, cap, n - 1), factor, Some(cap))
  }

  function BumpedTimes(q: Option<nat>, factor: real, cap: nat, n: nat): Option<nat>
    requires factor > 1.0
  {
    if q.Some? then Some(Bumps(q.value, factor, cap, n)) else None
  }

  /** Containers and their limits and requests are bumped independently of one another. */
  lemma {:induction false} BumpTimesPointwise(cs: seq<Container>, factor: real, cap: nat, n: nat, i: nat)
    requires factor > 1.0 && i < |cs|
    ensures var c := BumpTimes(cs, factor, cap, n)[i];
      && MemoryOf(c.limits) == BumpedTimes(MemoryOf(cs[i].limits), factor, cap, n)
      && MemoryOf(c.requests) == BumpedTimes(MemoryOf(cs[i].requests), factor, cap, n)
      && (RequestWithinLimit(cs[i]) ==> RequestWithinLimit(c))
  {
    if n > 0 {
      BumpTimesPointwise(cs, factor, cap, n - 1, i);
      BumpKeepsContainer(BumpTimes(cs, factor, cap, n - 1)[i], factor, Some(cap), "");
    }
  }

  /** A workload bumped often enough has every limit at the cap, exactly where the factor gains on it, and no request above it. */
  lemma RepeatedHealsReachCap(cs: seq<Container>, factor: real, cap: nat, n: nat, i: nat)
    requires factor > 1.0 && i < |cs| && MemoryOf(cs[i].limits).Some? && RequestWithinLimit(cs[i])
    requires var q := MemoryOf(cs[i].limits).value; q % MIB == 0 && q <= cap && n >= (cap - q) / MIB + 1
    ensures var c, q := BumpTimes(cs, factor, cap, n)[i], MemoryOf(cs[i].limits).value;
      && RequestWithinLimit(c)
      && (MemoryOf(c.limits) == Some(cap) <==> q == cap || Scale(q, factor) > q)
  {
    BumpTimesPointwise(cs, factor, cap, n, i);
    BumpConverges(MemoryOf(cs[i].limits).value, factor, cap, n);
  }

  // ---------- parseFactor ----------

  /** The values of a float64, with exact finite ones. */
  datatype Float = NotANumber | Infinite(negative: bool) | Finite(value: real)

  predicate AboveOne(f: Float) { (f.Infinite? && !f.negative) || (f.Finite? && f.value > 1.0) }

  /** Go's f <= 1.0, which is false of a NaN. */
  predicate AtMostOne(f: Float) { (f.Infinite? && f.negative) || (f.Finite? && f.value <= 1.0) }

  /** `parse` is strconv.ParseFloat on the texts it accepts. */
  function ParseFactor(parse: string -> Option<Float>, s: Option<string>): (r: Result<Float>)
    ensures r.Ok? && r.value.Finite? ==> r.value.value > 1.0
    ensures s == None || s == Some("") ==> r == Ok(Finite(1.5))
    ensures s.Some? && s.value != "" && parse(s.value).None? ==> r.Err?
  {
    if s.None? || s.value == "" then Ok(Finite(1.5))
    else
      var v := parse(s.value);
      if v.None? then Err("invalid memoryFactor")
      else if AtMostOne(v.value) then Err("memoryFactor must be > 1.0")
      else Ok(v.value)
  }

  /** What is accepted lies above one, and is taken as it is, except that a NaN is accepted too. */
  lemma FactorAcceptedIff(parse: string -> Option<Float>, text: string, f: Float)
    requires text != ""
    ensures ParseFactor(parse, Some(text)) == Ok(f) <==>
      && parse(text) == Some(f)
      && match f
         case NotANumber => true
         case Infinite(negative) => !negative
         case Finite(x) => x > 1.0
    ensures ParseFactor(parse, Some(text)) == Ok(f) ==> (AboveOne(f) <==> f != NotANumber)
  {
  }
}
