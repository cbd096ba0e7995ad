/** Cause of death from collected evidence (internal/forensics/diagnosis.go). */
module Diagnosis {
  import opened Common

  /** The cause constants; NoCause is the empty string of a status not yet written. */
  datatype Cause =
    | NoCause | OutOfMemory | RepeatedCrash | ProbeFailure | NodePressure
    | ImagePullFailed | ApplicationErr | JobFailed | Unknown

  function CauseName(c: Cause): string {
    match c
    case NoCause => ""
    case OutOfMemory => "OutOfMemory"
    case RepeatedCrash => "RepeatedCrash"
    case ProbeFailure => "ProbeFailure"
    case NodePressure => "NodePressure"
    case ImagePullFailed => "ImagePullFailure"
    case ApplicationErr => "ApplicationError"
    case JobFailed => "JobFailed"
    case Unknown => "Unknown"
  }

  datatype Confidence = Unset | Low | Medium | High

  datatype EventRecord = EventRecord(time: Option<int>, kind: string, reason: string, message: string)

  datatype Evidence = Evidence(
    oomKilled: bool, exitCode: Option<int>, signal: Option<int>, terminationReason: string,
    waitingReason: string, restartCount: int, podPhaseReason: string, jobFailed: bool, events: seq<EventRecord>)

  /** The one-line summaries, up to their fixed wording; JobMessage is a Job's own failure message. */
  datatype Summary =
    | NoSummary | KernelOom | ProbesFailed | EvictedFromNode | ImageNotPulled | BackoffExhausted
    | CrashLooping(restarts: int) | Sigkilled | Exited(code: int) | Undetermined | JobMessage(text: string)

  datatype Verdict = Verdict(cause: Cause, confidence: Confidence, summary: Summary)

  function Lowered(lower: char -> char, s: string): string { seq(|s|, i requires 0 <= i < |s| => lower(s[i])) }

  predicate Contains(s: string, sub: string) {
    exists i: nat :: i <= |s| && OccursAt(s, sub, i)
  }

  predicate OccursAt(s: string, sub: string, i: nat) {
    i + |sub| <= |s| && s[i..i + |sub|] == sub
  }

  predicate Liveness(lower: char -> char, e: EventRecord) {
    e.reason == "Unhealthy" && Contains(Lowered(lower, e.message), "liveness")
  }

  predicate HasProbeFailure(lower: char -> char, events: seq<EventRecord>) {
    |events| > 0 && (Liveness(lower, events[0]) || HasProbeFailure(lower, events[1..]))
  }

  function Diagnose(lower: char -> char, e: Evidence): (v: Verdict)
    ensures DiagnosablePair(v.cause, v.confidence) && v.summary != NoSummary
  {
    if e.oomKilled || e.terminationReason == "OOMKilled" then Verdict(OutOfMemory, High, KernelOom)
    else if HasProbeFailure(lower, e.events) then Verdict(ProbeFailure, High, ProbesFailed)
    else if e.podPhaseReason == "Evicted" then Verdict(NodePressure, High, EvictedFromNode)
    else if e.waitingReason == "ImagePullBackOff" || e.waitingReason == "ErrImagePull" then
      Verdict(ImagePullFailed, High, ImageNotPulled)
    else if e.jobFailed then Verdict(JobFailed, High, BackoffExhausted)
    else if e.waitingReason == "CrashLoopBackOff" then Verdict(RepeatedCrash, High, CrashLooping(e.restartCount))
    else if e.signal == Some(9) || e.exitCode == Some(137) then Verdict(RepeatedCrash, Medium, Sigkilled)
    else if e.exitCode.Some? && e.exitCode.value != 0 then Verdict(ApplicationErr, Medium, Exited(e.exitCode.value))
    else Verdict(Unknown, Low, Undetermined)
  }

  /** The (cause, confidence) pairs a verdict can carry. */
  predicate DiagnosablePair(cause: Cause, confidence: Confidence) {
    match confidence
    case Unset => false
    case Low => cause.Unknown?
    case Medium => cause.RepeatedCrash? || cause.ApplicationErr?
    case High => !cause.NoCause? && !cause.Unknown? && !cause.ApplicationErr?
  }

  /** At position i the text, in lower case, spells "liveness". */
  predicate SpellsLiveness(lower: char -> char, text: string, i: nat) {
    i + 8 <= |text| && forall j :: 0 <= j < 8 ==> lower(text[i + j]) == "liveness"[j]
  }

  /** A probe failure is an Unhealthy event that mentions liveness, in whatever case. */
  lemma LivenessIs(lower: char -> char, e: EventRecord)
    ensures Liveness(lower, e) <==> e.reason == "Unhealthy" && exists i: nat :: SpellsLiveness(lower, e.message, i)
  {
    var low := Lowered(lower, e.message);
    forall i: nat ensures OccursAt(low, "liveness", i) <==> SpellsLiveness(lower, e.message, i) {
      if i + 8 <= |low| {
        var part := low[i..i + 8];
        assert forall j :: 0 <= j < 8 ==> part[j] == lower(e.message[i + j]);
      }
    }
    if Contains(low, "liveness") { var i: nat :| i <= |low| && OccursAt(low, "liveness", i); assert SpellsLiveness(lower, e.message, i); }
    if i: nat :| SpellsLiveness(lower, e.message, i) { assert OccursAt(low, "liveness", i); }
  }

  lemma {:induction false} ProbeFailureIsMembership(lower: char -> char, events: seq<EventRecord>)
    ensures HasProbeFailure(lower, events) <==> exists e :: e in events && Liveness(lower, e)
  {
    if |events| > 0 {
      ProbeFailureIsMembership(lower, events[1..]);
      assert forall e :: e in events <==> e == events[0] || e in events[1..];
    }
  }

  /**
   How sure a verdict is and what it says: a crash is High only while the kubelet reports the crash loop and Medium
   when inferred from a kill; an application error is Medium; only Unknown is Low; the rest is High.
   */
  lemma VerdictIs(lower: char -> char, e: Evidence)
    ensures var v := Diagnose(lower, e);
      match v.cause
      case NoCause => false
      case OutOfMemory => v.confidence == High && v.summary == KernelOom
      case ProbeFailure => v.confidence == High && v.summary == ProbesFailed
      case NodePressure => v.confidence == High && v.summary == EvictedFromNode
      case ImagePullFailed => v.confidence == High && v.summary == ImageNotPulled
      case JobFailed => v.confidence == High && v.summary == BackoffExhausted
      case RepeatedCrash =>
        if e.waitingReason == "CrashLoopBackOff" then v.confidence == High && v.summary == CrashLooping(e.restartCount)
        else v.confidence == Medium && v.summary == Sigkilled && (e.signal == Some(9) || e.exitCode == Some(137))
      case ApplicationErr => v.confidence == Medium && e.exitCode.Some? && v.summary == Exited(e.exitCode.value)
      case Unknown => v.confidence == Low && v.summary == Undetermined
  {
  }

  /** A failed Job's verdict, from its events alone. */
  lemma JobVerdict(lower: char -> char, events: seq<EventRecord>)
    ensures Diagnose(lower, Evidence(false, None, None, "", "", 0, "", true, events)).cause ==
      if exists e :: e in events && Liveness(lower, e) then ProbeFailure else JobFailed
  {
    ProbeFailureIsMembership(lower, events);
    assert |"Evicted"| > 0 && |"OOMKilled"| > 0 && |"ImagePullBackOff"| > 0 && |"ErrImagePull"| > 0;
  }

  /** The order in which events were collected cannot change the verdict. */
  lemma VerdictIgnoresEventOrder(lower: char -> char, e: Evidence, a: seq<EventRecord>, b: seq<EventRecord>)
    requires multiset(a) == multiset(b)
    ensures Diagnose(lower, e.(events := a)) == Diagnose(lower, e.(events := b))
  {
    ProbeFailureIsMembership(lower, a);
    ProbeFailureIsMembership(lower, b);
    assert forall r :: r in a <==> r in multiset(a);
    assert forall r :: r in b <==> r in multiset(b);
  }
}

/** Which container of a pod died, and what is known of it (internal/controller/pod_controller.go:167-260). */
module Detection {
  import opened Common
  import opened Diagnosis

  datatype Termination = Termination(exitCode: int, signal: int, reason: string, message: string)

  datatype ContainerStatus = ContainerStatus(
    name: string, restartCount: int, terminated: Option<Termination>, waiting: Option<string>, last: Option<Termination>)

  datatype Pod = Pod(reason: string, containers: seq<ContainerStatus>)

  datatype WatchConfig = WatchConfig(evictions: Option<bool>, restartThreshold: Option<int>)

  datatype PodDeath = PodDeath(
    container: string, restartCount: int, exitCode: Option<int>, signal: Option<int>, oomKilled: bool,
    terminationMsg: string, terminatedRsn: string, waitingReason: string, evicted: bool)

  const DEFAULT_RESTART_THRESHOLD := 3

  function Fresh(name: string, restarts: int): PodDeath {
    PodDeath(name, restarts, None, None, false, "", "", "", false)
  }

  function FillTermination(d: PodDeath, t: Termination): PodDeath {
    var d1 := d.(exitCode := Some(t.exitCode), terminatedRsn := t.reason, terminationMsg := t.message);
    var d2 := if t.signal != 0 then d1.(signal := Some(t.signal)) else d1;
    if t.reason == "OOMKilled" then d2.(oomKilled := true) else d2
  }

  function FillLast(d: PodDeath, last: Option<Termination>): PodDeath {
    if last.Some? then FillTermination(d, last.value) else d
  }

  predicate Failing(t: Option<Termination>) { t.Some? && (t.value.exitCode != 0 || t.value.reason == "OOMKilled") }

  predicate CrashWaiting(w: Option<string>) {
    w == Some("CrashLoopBackOff") || w == Some("ImagePullBackOff") || w == Some("ErrImagePull")
  }

  /** The crash conditions of one container, in no particular order. */
  predicate Crashed(cs: ContainerStatus, threshold: int) {
    Failing(cs.terminated) || CrashWaiting(cs.waiting) || cs.restartCount >= threshold
  }

  function DeathOf(cs: ContainerStatus, threshold: int): PodDeath
    requires Crashed(cs, threshold)
  {
    var d := Fresh(cs.name, cs.restartCount);
    if Failing(cs.terminated) then FillTermination(d, cs.terminated.value)
    else if cs.waiting == Some("CrashLoopBackOff") then FillLast(d.(waitingReason := cs.waiting.value), cs.last)
    else if CrashWaiting(cs.waiting) then d.(waitingReason := cs.waiting.value)
    else FillLast(d, cs.last)
  }

  predicate EvictionSeen(pod: Pod, cfg: WatchConfig) {
    pod.reason == "Evicted" && cfg.evictions == Some(true)
  }

  predicate ImagePull(w: Option<string>) { w == Some("ImagePullBackOff") || w == Some("ErrImagePull") }

  /** The termination whose facts become evidence: a failing current one, none for an image that never ran, else the last. */
  function Reported(cs: ContainerStatus): Option<Termination> {
    if Failing(cs.terminated) then cs.terminated else if ImagePull(cs.waiting) then None else cs.last
  }

  /** What is recorded of a crash, in the container status's own fields. */
  predicate DeathShows(cs: ContainerStatus, d: PodDeath) {
    && d.container == cs.name && d.restartCount == cs.restartCount && !d.evicted
    && d.waitingReason == (if !Failing(cs.terminated) && CrashWaiting(cs.waiting) then cs.waiting.value else "")
    && match Reported(cs)
       case None => d.exitCode == None && d.signal == None && !d.oomKilled && d.terminationMsg == "" && d.terminatedRsn == ""
       case Some(t) =>
         && d.exitCode == Some(t.exitCode) && d.signal == (if t.signal == 0 then None else Some(t.signal))
         && (d.oomKilled <==> t.reason == "OOMKilled") && d.terminationMsg == t.message && d.terminatedRsn == t.reason
  }

  lemma DeathOfShows(cs: ContainerStatus, threshold: int)
    requires Crashed(cs, threshold)
    ensures DeathShows(cs, DeathOf(cs, threshold))
  {
  }

  predicate FirstCrash(containers: seq<ContainerStatus>, threshold: int, i: nat) {
    && i < |containers| && Crashed(containers[i], threshold)
    && forall j :: 0 <= j < i ==> !Crashed(containers[j], threshold)
  }

  lemma CrashFound(containers: seq<ContainerStatus>, threshold: int, i: nat, d: PodDeath)
    requires FirstCrash(containers, threshold, i) && d == DeathOf(containers[i], threshold)
    ensures exists i: nat :: FirstCrash(containers, threshold, i) && DeathShows(containers[i], d) && d == DeathOf(containers[i], threshold)
  {
    DeathOfShows(containers[i], threshold);
  }

  method DetectPodDeath(pod: Pod, cfg: WatchConfig) returns (d: PodDeath, found: bool)
    ensures EvictionSeen(pod, cfg) ==> found && d == Fresh("", 0).(evicted := true)
    // otherwise: the least-index crashed container, found iff there is one
    ensures var threshold := cfg.restartThreshold.GetOr(3);
      !EvictionSeen(pod, cfg) ==>
        && (found <==> exists i :: 0 <= i < |pod.containers| && Crashed(pod.containers[i], threshold))
        && (found ==> exists i: nat :: FirstCrash(pod.containers, threshold, i) && DeathShows(pod.containers[i], d)
                                       && d == DeathOf(pod.containers[i], threshold))
  {
    if pod.reason == "Evicted" {
      if cfg.evictions == Some(true) {
        return Fresh("", 0).(evicted := true), true;
      }
    }
    var threshold := DEFAULT_RESTART_THRESHOLD;
    if cfg.restartThreshold.Some? {
      threshold := cfg.restartThreshold.value;
    }
    for i := 0 to |pod.containers|
      invariant forall j :: 0 <= j < i ==> !Crashed(pod.containers[j], threshold)
    {
      var cs := pod.containers[i];
      d := Fresh(cs.name, cs.restartCount);
      if cs.terminated.Some? && (cs.terminated.value.exitCode != 0 || cs.terminated.value.reason == "OOMKilled") {
        d := FillTermination(d, cs.terminated.value);
        CrashFound(pod.containers, threshold, i, d);
        return d, true;
      }
      if cs.waiting.Some? {
        if cs.waiting.value == "CrashLoopBackOff" {
          d := d.(waitingReason := cs.waiting.value);
          if cs.last.Some? { d := FillTermination(d, cs.last.value); }
          CrashFound(pod.containers, threshold, i, d);
          return d, true;
        } else if cs.waiting.value == "ImagePullBackOff" || cs.waiting.value == "ErrImagePull" {
          d := d.(waitingReason := cs.waiting.value);
          CrashFound(pod.containers, threshold, i, d);
          return d, true;
        }
      }
      if cs.restartCount >= threshold {
        if cs.last.Some? { d := FillTermination(d, cs.last.value); }
        CrashFound(pod.containers, threshold, i, d);
        return d, true;
      }
    }
    return Fresh("", 0), false;
  }

  function EvidenceOf(d: PodDeath, events: seq<EventRecord>): Evidence {
    Evidence(d.oomKilled, d.exitCode, d.signal, d.terminatedRsn, d.waitingReason, d.restartCount,
             if d.evicted then "Evicted" else "", false, events)
  }

  /** A last termination that explains nothing. */
  predicate Inconclusive(last: Option<Termination>) {
    last.Some? ==> last.value.exitCode == 0 && last.value.signal != 9 && last.value.reason != "OOMKilled"
  }

  /** A death detected in a container is Unknown exactly when only its restart count gave it away. */
  lemma UnknownOnlyByThreshold(lower: char -> char, cs: ContainerStatus, threshold: int, events: seq<EventRecord>)
    requires Crashed(cs, threshold)
    ensures Diagnose(lower, EvidenceOf(DeathOf(cs, threshold), events)).cause == Unknown <==>
      && !Failing(cs.terminated) && !CrashWaiting(cs.waiting)
      && !HasProbeFailure(lower, events) && Inconclusive(cs.last)
  {
    var d := DeathOf(cs, threshold);
    DiagnoseUnknown(lower, EvidenceOf(d, events));
    EmptyIsNotSpecial();
    if !Failing(cs.terminated) && !CrashWaiting(cs.waiting) {
      assert d == FillLast(Fresh(cs.name, cs.restartCount), cs.last);
    }
  }

  lemma DiagnoseUnknown(lower: char -> char, e: Evidence)
    ensures Diagnose(lower, e).cause == Unknown <==>
      && !e.oomKilled && e.terminationReason != "OOMKilled" && !HasProbeFailure(lower, e.events)
      && e.podPhaseReason != "Evicted" && !CrashWaiting(Some(e.waitingReason)) && !e.jobFailed
      && e.signal != Some(9) && (e.exitCode == None || e.exitCode == Some(0))
  {
  }

  lemma EmptyIsNotSpecial()
    ensures "" != "Evicted" && "" != "OOMKilled" && !CrashWaiting(Some(""))
  {
    assert |"CrashLoopBackOff"| > 0 && |"ImagePullBackOff"| > 0 && |"ErrImagePull"| > 0;
  }

  predicate OomReported(cs: ContainerStatus) { Reported(cs).Some? && Reported(cs).value.reason == "OOMKilled" }

  predicate KillReported(cs: ContainerStatus) {
    Reported(cs).Some? && (Reported(cs).value.signal == 9 || Reported(cs).value.exitCode == 137)
  }

  /** From container status to cause, for every crashed container: which facts decide, in which order. */
  lemma DetectedCause(lower: char -> char, cs: ContainerStatus, threshold: int, events: seq<EventRecord>)
    requires Crashed(cs, threshold)
    ensures var cause := Diagnose(lower, EvidenceOf(DeathOf(cs, threshold), events)).cause;
      var probe, waits := exists e :: e in events && Liveness(lower, e), !Failing(cs.terminated);
      && (cause == OutOfMemory <==> OomReported(cs))
      && (cause == ProbeFailure <==> probe && !OomReported(cs))
      && (cause == ImagePullFailed <==> waits && ImagePull(cs.waiting) && !probe)
      && (cause == RepeatedCrash <==>
          !OomReported(cs) && !probe && ((waits && cs.waiting == Some("CrashLoopBackOff")) || KillReported(cs)))
      && (cause == ApplicationErr <==>
          && !OomReported(cs) && !probe && !(waits && cs.waiting == Some("CrashLoopBackOff")) && !KillReported(cs)
          && Reported(cs).Some? && Reported(cs).value.exitCode != 0)
      && cause != NodePressure && cause != JobFailed && cause != NoCause
  {
    ProbeFailureIsMembership(lower, events);
    EmptyIsNotSpecial();
    WaitingReasonsDiffer();
    hide HasProbeFailure, Liveness;
  }

  /** And how sure it is: a crash loop reported by the kubelet is High, one inferred from a kill is Medium. */
  lemma DetectedConfidence(lower: char -> char, cs: ContainerStatus, threshold: int, events: seq<EventRecord>)
    requires Crashed(cs, threshold)
    ensures var v := Diagnose(lower, EvidenceOf(DeathOf(cs, threshold), events));
      match v.cause
      case RepeatedCrash =>
        if !Failing(cs.terminated) && cs.waiting == Some("CrashLoopBackOff")
        then v.confidence == High && v.summary == CrashLooping(cs.restartCount)
        else v.confidence == Medium && v.summary == Sigkilled
      case ApplicationErr => v.confidence == Medium && Reported(cs).Some? && v.summary == Exited(Reported(cs).value.exitCode)
      case Unknown => v.confidence == Low
      case _ => v.confidence == High
  {
    hide Diagnose, HasProbeFailure;
    VerdictIs(lower, EvidenceOf(DeathOf(cs, threshold), events));
    DeathOfShows(cs, threshold);
    WaitingReasonsDiffer();
    EmptyIsNotSpecial();
    assert |"CrashLoopBackOff"| > 0;
  }

  lemma WaitingReasonsDiffer()
    ensures "CrashLoopBackOff" != "ImagePullBackOff" && "CrashLoopBackOff" != "ErrImagePull"
  {
    assert "CrashLoopBackOff"[0] == 'C' && "ImagePullBackOff"[0] == 'I' && "ErrImagePull"[0] == 'E';
  }

  /** Detection composed with diagnosis: an eviction is never Unknown, and never ApplicationError. */
  lemma EvictionVerdict(lower: char -> char, events: seq<EventRecord>)
    ensures Diagnose(lower, EvidenceOf(Fresh("", 0).(evicted := true), events)).cause ==
      if exists e :: e in events && Liveness(lower, e) then ProbeFailure else NodePressure
  {
    ProbeFailureIsMembership(lower, events);
  }
}

/** The event timeline: timestamp choice and stable sort (internal/forensics/events.go). */
module Timeline {
  import opened Common
  import Sorting
  import opened Diagnosis

  /** A core/v1 Event; None stands for a zero timestamp. */
  datatype CoreEvent = CoreEvent(last: Option<int>, event: Option<int>, first: Option<int>,
                                 kind: string, reason: string, message: string)

  function EventTime(e: CoreEvent): Option<int> {
    if e.last.Some? then e.last else if e.event.Some? then e.event else e.first
  }

  function RecordOf(e: CoreEvent): EventRecord { EventRecord(EventTime(e), e.kind, e.reason, e.message) }

  function RecordsOf(items: seq<CoreEvent>): seq<EventRecord> {
    seq(|items|, i requires 0 <= i < |items| => RecordOf(items[i]))
  }

  /** The comparator handed to sort.SliceStable. */
  predicate Before(a: EventRecord, b: EventRecord) {
    if a.time.None? || b.time.None? then a.time.Some? else a.time.value < b.time.value
  }

  lemma StrictWeakOrder(a: EventRecord, b: EventRecord, c: EventRecord)
    ensures !Before(a, a)
    ensures Before(a, b) && Before(b, c) ==> Before(a, c)
    ensures !Before(a, b) && !Before(b, c) ==> !Before(a, c)
    ensures !Before(a, b) && !Before(b, a) <==> a.time == b.time
  {
  }

  ghost predicate Sorted(s: seq<EventRecord>) { Sorting.Sorted(Before, s) }

  /** The records with one given timestamp (or none), in order. */
  function Group(s: seq<EventRecord>, t: Option<int>): seq<EventRecord> {
    if |s| == 0 then []
    else Group(s[..|s| - 1], t) + (if s[|s| - 1].time == t then [s[|s| - 1]] else [])
  }

  function StableSort(s: seq<EventRecord>): seq<EventRecord> { Sorting.InsertAll(Before, s) }

  lemma GroupSnoc(s: seq<EventRecord>, x: EventRecord, t: Option<int>)
    ensures Group(s + [x], t) == Group(s, t) + (if x.time == t then [x] else [])
  {
    assert (s + [x])[..|s|] == s;
  }

  lemma {:induction false} InsertKeepsGroups(s: seq<EventRecord>, x: EventRecord, t: Option<int>)
    ensures Group(Sorting.Insert(Before, s, x), t) == Group(s, t) + (if x.time == t then [x] else [])
  {
    if |s| > 0 && Before(x, s[|s| - 1]) {
      InsertKeepsGroups(s[..|s| - 1], x, t);
      GroupSnoc(Sorting.Insert(Before, s[..|s| - 1], x), s[|s| - 1], t);
    } else {
      GroupSnoc(s, x, t);
    }
  }

  /** Insertion keeps every group of equal timestamps in its original order. */
  lemma {:induction false} StableSortKeepsGroups(s: seq<EventRecord>, t: Option<int>)
    ensures Group(StableSort(s), t) == Group(s, t)
  {
    if |s| > 0 {
      StableSortKeepsGroups(s[..|s| - 1], t);
      InsertKeepsGroups(StableSort(s[..|s| - 1]), s[|s| - 1], t);
    }
  }

  lemma {:induction false} GroupFirst(s: seq<EventRecord>, t: Option<int>)
    ensures Group(s, t) == if |s| == 0 then [] else (if s[0].time == t then [s[0]] else []) + Group(s[1..], t)
  {
    if |s| > 1 {
      GroupFirst(s[..|s| - 1], t);
      assert s[..|s| - 1][1..] == s[1..][..|s| - 2];
    }
  }

  lemma {:induction false} GroupMembers(s: seq<EventRecord>, t: Option<int>)
    ensures Group(s, t) != [] <==> exists i :: 0 <= i < |s| && s[i].time == t
  {
    if |s| > 0 {
      GroupMembers(s[..|s| - 1], t);
      if s[|s| - 1].time == t { assert 0 <= |s| - 1 < |s|; }
      if Group(s[..|s| - 1], t) != [] { var i :| 0 <= i < |s| - 1 && s[..|s| - 1][i].time == t; assert s[i].time == t; }
    }
  }

  /** A sorted order that keeps every group in its original order is unique: it is what any stable sort returns. */
  lemma {:induction false} StableSortUnique(a: seq<EventRecord>, b: seq<EventRecord>)
    requires Sorted(a) && Sorted(b) && forall t :: Group(a, t) == Group(b, t)
    ensures a == b
  {
    if |a| == 0 || |b| == 0 {
      if |a| > 0 { GroupMembers(a, a[0].time); GroupMembers(b, a[0].time); }
      if |b| > 0 { GroupMembers(a, b[0].time); GroupMembers(b, b[0].time); }
    } else {
      LeastFirst(a, b);
      LeastFirst(b, a);
      StrictWeakOrder(a[0], b[0], a[0]);
      GroupFirst(a, a[0].time);
      GroupFirst(b, a[0].time);
      assert Group(a, a[0].time)[0] == a[0] && Group(b, a[0].time)[0] == b[0];
      forall t ensures Group(a[1..], t) == Group(b[1..], t) { TailGroups(a, b, t); }
      StableSortUnique(a[1..], b[1..]);
      assert a == [a[0]] + a[1..] && b == [b[0]] + b[1..];
    }
  }

  lemma TailGroups(a: seq<EventRecord>, b: seq<EventRecord>, t: Option<int>)
    requires |a| > 0 && |b| > 0 && a[0] == b[0] && Group(a, t) == Group(b, t)
    ensures Group(a[1..], t) == Group(b[1..], t)
  {
    GroupFirst(a, t);
    GroupFirst(b, t);
    var skip := if a[0].time == t then 1 else 0;
    assert Group(a[1..], t) == Group(a, t)[skip..];
    assert Group(b[1..], t) == Group(b, t)[skip..];
  }

  lemma LeastFirst(a: seq<EventRecord>, b: seq<EventRecord>)
    requires Sorted(a) && |a| > 0 && |b| > 0 && forall t :: Group(a, t) == Group(b, t)
    ensures !Before(b[0], a[0])
  {
    GroupMembers(a, b[0].time);
    GroupMembers(b, b[0].time);
    var i :| 0 <= i < |a| && a[i].time == b[0].time;
  }

  /** The record of an event, in its own fields: the last timestamp, else the event's, else the first. */
  predicate Records(e: CoreEvent, r: EventRecord) {
    && r.time == (if e.last.Some? then e.last else if e.event.Some? then e.event else e.first)
    && r.kind == e.kind && r.reason == e.reason && r.message == e.message
  }

  method Events(items: seq<CoreEvent>) returns (records: seq<EventRecord>)
    ensures records == StableSort(RecordsOf(items))
    ensures |records| == |items|
    ensures forall e :: e in items ==> exists r :: r in records && Records(e, r)
    ensures forall r :: r in records ==> exists e :: e in items && Records(e, r)
  {
    var unsorted := [];
    for i := 0 to |items|
      invariant unsorted == RecordsOf(items[..i])
    {
      var t := EventTime(items[i]);
      unsorted := unsorted + [EventRecord(t, items[i].kind, items[i].reason, items[i].message)];
    }
    assert items[..|items|] == items;
    var a := new EventRecord[|unsorted|](i requires 0 <= i < |unsorted| => unsorted[i]);
    assert a[..] == unsorted;
    Sorting.Sort(Before, a);
    records := a[..];
    EventsAreRecorded(items);
  }

  lemma EventsAreRecorded(items: seq<CoreEvent>)
    ensures var records := StableSort(RecordsOf(items));
      && |records| == |items|
      && (forall e :: e in items ==> exists r :: r in records && Records(e, r))
      && (forall r :: r in records ==> exists e :: e in items && Records(e, r))
  {
    var plain, records := RecordsOf(items), StableSort(RecordsOf(items));
    Sorting.InsertAllSorts(Before, plain);
    assert |records| == |multiset(records)| == |multiset(plain)| == |plain|;
    forall e | e in items ensures exists r :: r in records && Records(e, r) {
      var i :| 0 <= i < |items| && items[i] == e;
      assert plain[i] in multiset(records) && Records(e, plain[i]);
    }
    forall r | r in records ensures exists e :: e in items && Records(e, r) {
      assert r in multiset(plain);
      var i :| 0 <= i < |plain| && plain[i] == r;
      assert items[i] in items && Records(items[i], r);
    }
  }

  /** The timeline: dated entries by time, undated ones last, ties in collection order, nothing lost. */
  lemma TimelineShape(items: seq<CoreEvent>, t: Option<int>, i: nat, j: nat)
    requires i < j < |StableSort(RecordsOf(items))|
    ensures var s := StableSort(RecordsOf(items));
      && multiset(s) == multiset(RecordsOf(items))
      && Group(s, t) == Group(RecordsOf(items), t)
      && (s[j].time.Some? ==> s[i].time.Some? && s[i].time.value <= s[j].time.value)
  {
    Sorting.InsertAllSorts(Before, RecordsOf(items));
    StableSortKeepsGroups(RecordsOf(items), t);
  }
}
