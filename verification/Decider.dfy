/** Choosing an action: capability table, rule tables, LLM and composite deciders
    (internal/selfheal/subject_actions.go, decider.go, llm_decider.go), and the executors' own
    kind switches (actions.go). */
module Decider {
  import opened Common
  import opened Diagnosis
  import JsonScan

  /** SelfHealAction; NoAction is the empty string, OtherAction any string outside the enum. */
  datatype Action = NoAction | DeletePod | RestartWorkload | BumpMemory | RollbackDeployment | OtherAction(name: string)

  function ActionName(a: Action): string {
    match a
    case NoAction => ""
    case DeletePod => "DeletePod"
    case RestartWorkload => "RestartWorkload"
    case BumpMemory => "BumpMemory"
    case RollbackDeployment => "RollbackDeployment"
    case OtherAction(name) => name
  }

  /** Subject kinds; OtherKind is every kind the tables do not mention. */
  datatype Kind = Deployment | StatefulSet | DaemonSet | Pod | Job | CronJob | OtherKind(name: string)

  /** Why a decider skipped, or what the action rests on. */
  datatype Why =
    | NoRule | KindUnsupported(a: Action) | NotAllowlisted(a: Action) | RuleApplied
    | EmptyMenu | LlmError | LlmUnparsable | LlmDeclined(reason: string) | LlmDisallowed(a: Action) | LlmApplied(reason: string)

  datatype Decision = Decision(action: Action, why: Why, decidedBy: string)

  function Skip(why: Why, decider: string): Decision { Decision(NoAction, why, decider) }

  function DefaultActions(): seq<Action> { [DeletePod, RestartWorkload, BumpMemory, RollbackDeployment] }

  // ---------- capability ----------

  function SupportedActions(kind: Kind): set<Action> {
    match kind
    case Deployment => {DeletePod, RestartWorkload, BumpMemory, RollbackDeployment}
    case StatefulSet => {DeletePod, RestartWorkload, BumpMemory}
    case DaemonSet => {DeletePod, RestartWorkload, BumpMemory}
    case Pod => {DeletePod}
    case _ => {}
  }

  predicate KindSupports(kind: Kind, a: Action) { a in SupportedActions(kind) }

  predicate ActionAllowed(a: Action, allowed: seq<Action>) { a in allowed }

  function Applicable(kind: Kind, allowed: seq<Action>): seq<Action> {
    if |allowed| == 0 then []
    else
      var rest := Applicable(kind, allowed[..|allowed| - 1]);
      if KindSupports(kind, allowed[|allowed| - 1]) then rest + [allowed[|allowed| - 1]] else rest
  }

  method ApplicableActions(kind: Kind, allowed: seq<Action>) returns (out: seq<Action>)
    ensures out == Applicable(kind, allowed)
  {
    out := [];
    if SupportedActions(kind) == {} {
      NothingApplicable(kind, allowed);
      return;
    }
    for i := 0 to |allowed|
      invariant out == Applicable(kind, allowed[..i])
    {
      assert allowed[..i + 1][..i] == allowed[..i];
      if allowed[i] in SupportedActions(kind) {
        out := out + [allowed[i]];
      }
    }
    assert allowed[..|allowed|] == allowed;
  }

  lemma {:induction false} NothingApplicable(kind: Kind, allowed: seq<Action>)
    requires SupportedActions(kind) == {}
    ensures Applicable(kind, allowed) == []
  {
    if |allowed| > 0 { NothingApplicable(kind, allowed[..|allowed| - 1]); }
  }

  /** The menu is the intersection of the allowlist and the capability set. */
  lemma {:induction false} ApplicableIsIntersection(kind: Kind, allowed: seq<Action>, a: Action)
    ensures a in Applicable(kind, allowed) <==> a in allowed && KindSupports(kind, a)
  {
    if |allowed| > 0 {
      ApplicableIsIntersection(kind, allowed[..|allowed| - 1], a);
      assert allowed == allowed[..|allowed| - 1] + [allowed[|allowed| - 1]];
    }
  }

  // ---------- rules ----------

  const RULE_MAP: map<Cause, Action> := map[
    OutOfMemory := BumpMemory,
    RepeatedCrash := RollbackDeployment,
    ProbeFailure := RestartWorkload,
    ApplicationErr := DeletePod,
    ImagePullFailed := RollbackDeployment,
    NodePressure := DeletePod]

  const KIND_RULE_MAP: map<Kind, map<Cause, Action>> := map[
    Pod := map[RepeatedCrash := DeletePod, ApplicationErr := DeletePod, ProbeFailure := DeletePod, NodePressure := DeletePod],
    StatefulSet := map[RepeatedCrash := RestartWorkload, ImagePullFailed := RestartWorkload],
    DaemonSet := map[RepeatedCrash := RestartWorkload, ImagePullFailed := RestartWorkload]]

  function RuleFor(kind: Kind, cause: Cause): Option<Action> {
    if kind in KIND_RULE_MAP && cause in KIND_RULE_MAP[kind] then Some(KIND_RULE_MAP[kind][cause])
    else if cause in RULE_MAP then Some(RULE_MAP[cause])
    else None
  }

  function RuleDecide(kind: Kind, cause: Cause, allowed: seq<Action>): Decision {
    var rule := RuleFor(kind, cause);
    if rule.None? then Skip(NoRule, "rule")
    else if !KindSupports(kind, rule.value) then Skip(KindUnsupported(rule.value), "rule")
    else if !ActionAllowed(rule.value, allowed) then Skip(NotAllowlisted(rule.value), "rule")
    else Decision(rule.value, RuleApplied, "rule")
  }

  // ---------- LLM ----------

  /** The provider's answer: an error, or any text. */
  datatype Reply = ProviderError | Text(raw: string)

  datatype Envelope = Envelope(action: Action, reason: string)

  /** JSON decoding with trimming is library code: any partial function of the extracted object. */
  type Decoder = string -> Option<Envelope>

  function ParseDecision(decode: Decoder, raw: string): Option<Envelope> {
    var body := JsonScan.Extract(raw);
    if body == "" then None else decode(body)
  }

  function LlmDecide(decode: Decoder, kind: Kind, allowed: seq<Action>, reply: Reply): Decision {
    var menu := Applicable(kind, allowed);
    if |menu| == 0 then Skip(EmptyMenu, "llm")
    else if reply.ProviderError? then Skip(LlmError, "llm")
    else
      var env := ParseDecision(decode, reply.raw);
      if env.None? then Skip(LlmUnparsable, "llm")
      else if env.value.action == NoAction then Skip(LlmDeclined(env.value.reason), "llm")
      else if !ActionAllowed(env.value.action, menu) then Skip(LlmDisallowed(env.value.action), "llm")
      else Decision(env.value.action, LlmApplied(env.value.reason), "llm")
  }

  // ---------- composition ----------

  /** HealDeciderFactory: rules alone, or rules first and the LLM as fallback; None: no LLM configured. */
  function ProductionDecide(decode: Decoder, kind: Kind, cause: Cause, allowed: seq<Action>, llm: Option<Reply>): Decision {
    var d := RuleDecide(kind, cause, allowed);
    if llm.None? || d.action != NoAction then d else LlmDecide(decode, kind, allowed, llm.value)
  }

  // ---------- executors ----------

  datatype Executor = DeletePodExec | RestartExec | BumpExec | RollbackExec

  function Executors(a: Action): Option<Executor> {
    match a
    case DeletePod => Some(DeletePodExec)
    case RestartWorkload => Some(RestartExec)
    case BumpMemory => Some(BumpExec)
    case RollbackDeployment => Some(RollbackExec)
    case _ => None
  }

  /** The executor's kind switch does not end in its "not supported" error. */
  predicate ExecutorAccepts(e: Executor, kind: Kind) {
    match e
    case DeletePodExec => true
    case RestartExec => kind in {Deployment, StatefulSet, DaemonSet}
    case BumpExec => kind in {Deployment, StatefulSet, DaemonSet}
    case RollbackExec => kind == Deployment
  }

  /** What the engine may safely hand to an executor. */
  predicate Executable(a: Action, kind: Kind, allowed: seq<Action>) {
    && a in allowed && KindSupports(kind, a)
    && Executors(a).Some? && ExecutorAccepts(Executors(a).value, kind)
  }

  lemma SupportedIsExecutable(a: Action, kind: Kind, allowed: seq<Action>)
    requires a in allowed && KindSupports(kind, a)
    ensures Executable(a, kind, allowed) && a != NoAction
  {
  }

  /** Any action the production decider picks is allowlisted, supported, and accepted by its executor. */
  lemma DeciderExecutorAgreement(decode: Decoder, kind: Kind, cause: Cause, allowed: seq<Action>, llm: Option<Reply>)
    ensures var d := ProductionDecide(decode, kind, cause, allowed, llm);
      d.action != NoAction ==> Executable(d.action, kind, allowed)
  {
    var d := ProductionDecide(decode, kind, cause, allowed, llm);
    if d.action != NoAction {
      ApplicableIsIntersection(kind, allowed, d.action);
      SupportedIsExecutable(d.action, kind, allowed);
    }
  }

  /** The rules settle the matter. */
  predicate RuleActs(kind: Kind, cause: Cause, allowed: seq<Action>) {
    var rule := RuleFor(kind, cause);
    rule.Some? && KindSupports(kind, rule.value) && rule.value in allowed
  }

  lemma RuleDecideActs(kind: Kind, cause: Cause, allowed: seq<Action>)
    ensures RuleActs(kind, cause, allowed) ==>
      RuleDecide(kind, cause, allowed).action == RuleFor(kind, cause).value != NoAction
    ensures !RuleActs(kind, cause, allowed) ==> RuleDecide(kind, cause, allowed).action == NoAction
  {
    hide RuleFor;
  }

  lemma LlmDecideActs(decode: Decoder, kind: Kind, allowed: seq<Action>, reply: Reply, a: Action)
    requires a != NoAction
    ensures LlmDecide(decode, kind, allowed, reply).action == a <==>
      && reply.Text? && a in allowed && KindSupports(kind, a)
      && ParseDecision(decode, reply.raw).Some? && ParseDecision(decode, reply.raw).value.action == a
  {
    hide ParseDecision, SupportedActions;
    ApplicableIsIntersection(kind, allowed, a);
  }

  /** The LLM is only a fallback: the rules decide when they act, otherwise the reply does, within the menu. */
  lemma ProductionActs(decode: Decoder, kind: Kind, cause: Cause, allowed: seq<Action>, llm: Option<Reply>, a: Action)
    requires a != NoAction
    ensures ProductionDecide(decode, kind, cause, allowed, llm).action == a <==>
      if RuleActs(kind, cause, allowed) then a == RuleFor(kind, cause).value
      else
        && llm.Some? && llm.value.Text?
        && a in allowed && KindSupports(kind, a)
        && ParseDecision(decode, llm.value.raw).Some? && ParseDecision(decode, llm.value.raw).value.action == a
  {
    RuleDecideActs(kind, cause, allowed);
    if llm.Some? { LlmDecideActs(decode, kind, allowed, llm.value, a); }
    hide RuleDecide, LlmDecide, RuleActs, RuleFor, ParseDecision, SupportedActions;
  }

  /** Whatever prose surrounds it, the reply's first object is what is decoded. */
  lemma LlmActsOnObject(decode: Decoder, kind: Kind, allowed: seq<Action>, pre: string, obj: string, post: string, a: Action)
    requires a != NoAction && '{' !in pre && JsonScan.MinimalObject(obj)
    ensures LlmDecide(decode, kind, allowed, Text(pre + obj + post)).action == a <==>
      a in allowed && KindSupports(kind, a) && decode(obj).Some? && decode(obj).value.action == a
  {
    JsonScan.ExtractRecovers(pre, obj, post);
    LlmDecideActs(decode, kind, allowed, Text(pre + obj + post), a);
    hide SupportedActions;
  }

  /** A reply without a closed object is declined, whatever the decoder makes of it. */
  lemma LlmDeclinesUnclosed(decode: Decoder, kind: Kind, allowed: seq<Action>, raw: string)
    requires var start := JsonScan.FirstBrace(raw);
      start == |raw| || forall k :: start < k <= |raw| ==> JsonScan.Depth(raw[start..k]) > 0
    ensures LlmDecide(decode, kind, allowed, Text(raw)).action == NoAction
  {
    JsonScan.UnclosedIsEmpty(raw);
  }

  /** Who decided: the rules where they act or stand alone, otherwise the LLM; and why the rules alone did not act. */
  lemma DeciderNamed(decode: Decoder, kind: Kind, cause: Cause, allowed: seq<Action>, llm: Option<Reply>)
    ensures var d := ProductionDecide(decode, kind, cause, allowed, llm);
      && d.decidedBy == (if llm.None? || RuleActs(kind, cause, allowed) then "rule" else "llm")
      && (RuleActs(kind, cause, allowed) ==> d.why == RuleApplied)
      && (llm.None? && !RuleActs(kind, cause, allowed) ==>
          match RuleFor(kind, cause)
          case None => d.why == NoRule
          case Some(a) => if KindSupports(kind, a) then d.why == NotAllowlisted(a) && a !in allowed else d.why == KindUnsupported(a))
  {
    hide RuleFor, ParseDecision, Applicable;
    RuleDecideActs(kind, cause, allowed);
  }

  /** The recommendation table of the project's documentation, row by row. */
  function DocumentedAction(kind: Kind, cause: Cause): Action {
    match cause
    case OutOfMemory => if kind in {Deployment, StatefulSet, DaemonSet} then BumpMemory else NoAction
    case RepeatedCrash =>
      if kind == Deployment then RollbackDeployment else if kind in {StatefulSet, DaemonSet} then RestartWorkload
      else if kind == Pod then DeletePod else NoAction
    case ProbeFailure =>
      if kind in {Deployment, StatefulSet, DaemonSet} then RestartWorkload else if kind == Pod then DeletePod else NoAction
    case ApplicationErr => if kind in {Deployment, StatefulSet, DaemonSet, Pod} then DeletePod else NoAction
    case ImagePullFailed =>
      if kind == Deployment then RollbackDeployment else if kind in {StatefulSet, DaemonSet} then RestartWorkload else NoAction
    case NodePressure => if kind in {Deployment, StatefulSet, DaemonSet, Pod} then DeletePod else NoAction
    case _ => NoAction
  }

  /** Without an LLM and with the full allowlist the decider is the documented table. */
  lemma RulesMatchDocumentation(kind: Kind, cause: Cause)
    ensures RuleDecide(kind, cause, DefaultActions()).action == DocumentedAction(kind, cause)
  {
    var rule := RuleFor(kind, cause);
    if rule.Some? {
      assert rule.value in DefaultActions();
    }
  }
}
