# Koroner in Dafny

Koroner is a Kubernetes operator. It notices that a container, pod or Job died, works out a probable cause, keeps
one `Obituary` per known issue (workload, container, cause), counts how often the issue recurs, and may try a
remediation under a per-namespace budget. This project models that core and proves what holds of it, above all
over whole runs in which any number of reconciles interleave, read stale caches, lose update races and fail halfway.

## How it is laid out

| file | module | what it covers |
|---|---|---|
| `RateLimit.dfy` | `RateLimit` | the sliding-window limiter as a class that compacts its slices in place, and the same limiter next to the complete log of grants |
| `Retry.dfy` | `Retry` | one versioned API object with stale reads, and the retry on conflict around get, mutate, update |
| `Naming.dfy` | `Naming` | object names, issue keys, episode strings |
| `Evidence.dfy` | `Diagnosis`, `Detection`, `Timeline` | which container died, the cause, the event timeline |
| `Sorting.dfy` | `Sorting` | the in-place sort the timeline and the rollback use |
| `Topology.dfy` | `Topology` | the bounded owner walk and the subject it yields |
| `JsonScan.dfy` | `JsonScan` | the brace scanner over model output |
| `Decider.dfy` | `Decider` | capabilities, rule tables, LLM and composite deciders, executor kind switches |
| `Memory.dfy` | `Memory` | scaling, rounding, clamping, and repeated bumps of containers |
| `Rollback.dfy` | `Rollback` | the ReplicaSet to roll back to |
| `Patching.dfy` | `Patching` | the executors that rewrite a pod template |
| `Obituaries.dfy` | `Obituaries` | the stored record, the operator's writes to it, and what a chain of writes adds up to |
| `Engine.dfy` | `Engine` | gates, records, `MaybeHeal`, `appendRecord`, `upsertObituary` as methods on one object |
| `Reconciles.dfy` | `Reconciles` | the state machine of concurrent reconciles and its history invariant |
| `Conservation.dfy` | `Conservation` | who wrote what, and what became of every grant |
| `Audit.dfy` | `Audit` | what results and records say is true, and each executor run changes the cluster at most once |
| `Refinement.dfy` | `Refinement` | a reconcile among others returns what the sequential methods return |
| `Theorems.dfy` | `Theorems` | the claims about every run |
| `Witnesses.dfy` | `Witnesses` | concrete runs on which tempting claims fail, and the exact conditions |

The state machine keeps, for every obituary, all committed versions, each tagged with the write that made it. A
reconcile is a thread with a program counter; a step is one API call, one limiter call or one local action. A read
answers any version committed so far, an old absence, or an error; an update succeeds only on the current version;
creating and writing the first status are two steps. A step that is not possible leaves the state alone, so every
sequence of steps is a run, and every theorem quantifies over all sequences. The cache, the clock, the policy of
the moment, the namespace selector's answer, the model's reply and the outcome of an executor are chosen by the
step.

## Where the code and its documentation differ

- `internal/controller/koroner.go:126-127` says that "created" and "bumped" both false means the episode was already
  counted. That holds in all runs if and only if Create did not answer AlreadyExists (`BothFalseExact`,
  `NeitherYetUncounted`). The converse reading fails too: "bumped" is also returned when the retried closure found the
  episode already counted (`BumpedWithoutCounting`). What every result does guarantee is `ResultsMeanCounted`.
- The repository's `README.md:34` says each death episode is deduplicated, and
  `api/v1alpha1/obituary_types.go:158-162` that occurrences are distinct episodes. `LastEpisode` remembers one episode,
  so the deaths A, B, A count three (`EpisodeReturns`). The two agree if and only if no episode returns after another
  was counted (`OccurrencesInEveryInterleaving`).
- The repository's `README.md:42` and `README.md:70-71` say the LLM decider overrides the rules. The factory makes the
  rules primary and the LLM the fallback (`ProductionActs`).
- `internal/selfheal/actions.go:322-323` says an unparseable factor falls back to 1.5; the code returns an error
  (`Memory.ParseFactor`).
- `internal/selfheal/ratelimit.go:24-27` says the limiter never permits more than configured. Counted by the time of
  the reservation that is so (`StartsWithinCap`); counted by the clock of the executor's start it holds exactly
  when a start never lags its reservation (`ClockBoundExact`).
- `api/v1alpha1/obituary_types.go:128` says a record's action is empty when it was skipped. A record skipped because
  the budget was refused carries the action that was decided (`SkippedWithAction`), and only such a one
  (`SkippedActionEmptyIff`).
- `internal/selfheal/engine.go:82-84` says a decision always leaves a record. It does if and only if an attempt of the
  append lands (`MaybeHeal`, `RecordedIffLands`); an executor may have run without a trace (`ExecutedUnrecorded`).
- `internal/selfheal/actions.go:332-334` says the factor must be above one; a NaN passes that comparison
  (`FactorAcceptedIff`).
- `api/v1alpha1/obituary_types.go:56-57` describes the episode key as uid, container and restart count; the code
  writes the issue key (`RecordsCohere`).
- `internal/selfheal/actions.go:284-285` speaks of multiplying memory; a cap below the current value lowers it
  (`CapLowersIff`).

## Model

The main results come first.

| member | source | states |
|---|---|---|
| Theorems.OccurrencesInEveryInterleaving | internal/controller/koroner.go:128-200 | In every run, after every commit to an object: the count is the number of committed deaths and of equal-episode blocks, adjacent committed deaths differ, and it is the number of distinct episodes if and only if none returns after another was counted, as for one pod's own deaths |
| Theorems.ResultsMeanCounted | internal/controller/koroner.go:124-200 | In every run a call that did not fail and did not lose the race to create leaves its episode among the record's committed deaths; "bumped" always does; losing the race reports neither result |
| Witnesses.BothFalseExact | internal/controller/koroner.go:126-159 | "Both false means already counted" holds in all runs if and only if Create did not answer AlreadyExists |
| Theorems.RecordsCohere | internal/controller/koroner.go:107-200 | Without hash collisions the record's key spells out the issue with the very cause shown, every evidence field is that of the one last committed death, as diagnosed, FirstSeen is that of the first, and subject and time of death are those it was created for |
| Theorems.TrailInEveryInterleaving | internal/selfheal/engine.go:219-233 | In every run the heal trail is the newest min(maxAttempts, k) of the k records committed since the last death, in commit order, and LastHealAt the newest one's time |
| Theorems.RecordsTellEvents | internal/selfheal/engine.go:151-197 | Every other committed record tells of the one event its reconcile's grant led to: same action and decider, matching outcome and reason, no earlier than it |
| Theorems.EventsAreTold | internal/selfheal/engine.go:151-197 | Conversely every dry-run outcome and executor start is told by the record its reconcile tries to append, once the executor has returned |
| Theorems.GrantsBalance | internal/selfheal/engine.go:138-175 | Conservation: outcomes use distinct grants of their record's namespace under their policy's cap (default 5), every grant is in one thread's hand or led to one outcome, and the totals balance |
| Theorems.StartsWithinCap | internal/selfheal/ratelimit.go:46-64 | Executor starts whose budget was reserved in a window are at most the cap of the window's last grant, in every run |
| Theorems.ChangesWithinCap | internal/selfheal/engine.go:138-175 | Changes to a namespace's workloads and pods on budget reserved in a window are at most the cap of the window's last grant, in every run |
| Witnesses.ClockBoundExact | internal/selfheal/ratelimit.go:24-27 | The window bound by start clock holds in all runs with lag at most `delay` if and only if delay is zero |
| Refinement.UpsertRefinesMethod | internal/controller/koroner.go:128-200 | Inside any run an upsert that has returned came out exactly as the sequential method does under the script that all other steps amount to |
| Refinement.RecordedIffLands | internal/selfheal/engine.go:219-237 | Inside any run a finished reconcile's record is committed if and only if that script lets an attempt land |
| Theorems.OnlyDeathsCount | internal/selfheal/engine.go:219-233 | A heal record or metadata write changes neither count, findings, episode, FirstSeen nor spec; a death adds exactly one |
| Theorems.DeathWrittenAtMostOnce | internal/controller/koroner.go:128-200 | A committed death belongs to one reconcile, which committed no other and whose upsert did not fail |
| Theorems.CommittedWritesStay | internal/controller/koroner.go:197-199 | What a reconcile committed, its death or the very record it tried to append, is still at the version it committed; created without error means this call wrote, both results false that it did not |
| Theorems.SubjectCoheres | internal/controller/koroner.go:86-109 | Two deaths stored under one name agree on namespace, kind, name, container and cause, when the names are slash-free and hashes do not collide |
| Theorems.RecordNamesItsDeaths | internal/controller/koroner.go:139-152 | With slash-free names and no collisions the record's subject is the workload of every death counted in it |
| Theorems.ActedOnDiagnosis | internal/selfheal/engine.go:88-105 | Whatever is acted on was enabled, Complete, allowed by the selector, rests on at least minOccurrences (default 3) committed deaths, is High where required, and shows a cause and confidence that diagnosis can return together |
| Theorems.HighConfidenceSparesApplicationErrors | internal/selfheal/engine.go:100-102 | Under requireHighConfidence no ApplicationError and no Unknown obituary is ever acted on, in any run |
| Theorems.EveryActionIsExecutable | internal/selfheal/engine.go:163-175 | In any run every settled action is allowlisted, supported and accepted by its executor; an executor starts if the policy says dryRun false, and otherwise, unset included, it is a dry-run outcome |
| Theorems.HighConfidenceNeedsCrashLoop | internal/selfheal/engine.go:100-102 | Under requireHighConfidence a RepeatedCrash is acted on only if the record's last death was seen in CrashLoopBackOff |
| Theorems.SkipsAreFree | internal/selfheal/engine.go:118-149 | A record, committed or lost, says Skipped exactly when its reconcile holds no grant |
| Theorems.DelayedStartsWithinCap | internal/selfheal/engine.go:138-175 | Counted by their own clock, starts are bounded on windows shortened by the longest wait from grant to start |
| Theorems.DryRunTouchesNothing | internal/selfheal/engine.go:151-161 | If no policy consulted has dryRun false, no executor starts and nothing in the cluster changes |
| Theorems.ChangesAreLicensed | internal/selfheal/engine.go:151-175 | Every change to the cluster was made by an executor started on a grant under a policy whose dryRun is false |
| Theorems.SkippedActionEmptyIff | internal/selfheal/engine.go:118-149 | In every run a committed skipped record leaves its action empty if and only if its reason is not the refused budget |
| Witnesses.StartsByClockExceedCap | internal/selfheal/engine.go:138-175 | A reachable run with cap one and two starts in one window, each at most `pause` after its reservation, for any positive pause up to a window |
| Witnesses.BumpedWithoutCounting | internal/controller/koroner.go:176-199 | A reachable state in which a call reported "bumped" and committed nothing |
| Witnesses.NeitherYetUncounted | internal/controller/koroner.go:153-159 | A reachable state in which a call returned both false, without error, and its episode is in no committed death |
| Witnesses.EpisodeReturns | internal/controller/koroner.go:170-188 | A reachable state whose one record holds the deaths A, B, A of three reconciles: three occurrences, two distinct episodes |
| Witnesses.SkippedWithAction | internal/selfheal/engine.go:140-149 | A reachable state with a committed skipped record that names BumpMemory |
| Witnesses.ExecutedUnrecorded | internal/selfheal/engine.go:219-237 | A reachable state in which an executor ran, its reconcile is over, and its record was never committed |
| Reconciles.RunKeepsInv | internal/controller/koroner.go:128-200 | Every interleaving keeps every object's versions a chain of single operator writes under its own key, and every thread's snapshot a committed version |
| Reconciles.PutFollows | internal/controller/koroner.go:160-197 | A write that takes effect appends exactly one version that follows from its immediate predecessor, though its snapshot was read earlier and possibly stale |
| Conservation.RunKeepsWhole | internal/selfheal/engine.go:85-237 | All invariants on histories, results, writes, grants, outcomes and the limiter hold in every reachable state |
| Audit.RunIsSound | internal/controller/koroner.go:124-200 | In every reachable state the results of upserts, the records tried and the changes per executor run are what they say |
| Obituaries.StatusIsClosedForm | internal/controller/koroner.go:160-197 | In any chain of writes the whole status is a function of the deaths committed and of the records since the last death, and the spec never changes |
| Obituaries.AdjacentEpisodesDiffer | internal/controller/koroner.go:170-183 | No two adjacent committed deaths carry the same episode |
| Obituaries.SameEpisodeIff | internal/controller/pod_controller.go:95 | Two crashes of a pod are one episode if and only if the restart count is the same |
| Obituaries.PodDeathIs | internal/controller/pod_controller.go:80-122 | From a crashed container to the record: subject, container, episode, restart count, termination and timeline are the pod's own |
| Obituaries.DeathWritesAre | internal/controller/koroner.go:139-197 | What creation, first status and bump write, field by field |
| Obituaries.OccurrencesCount | internal/controller/koroner.go:170-188 | The same of any chain of writes: deaths, blocks, at least the distinct episodes, and exactly those if and only if no episode returns |
| Obituaries.FindingsFromOneDeath | internal/controller/koroner.go:187-196 | All evidence fields stem from the last committed death, with a diagnosable pair; FirstSeen from the first |
| Obituaries.TrailIsNewestRecords | internal/selfheal/engine.go:226-231 | Trimming at each append keeps exactly the newest records since the last death |
| Engine.ActIsExecutable | internal/selfheal/engine.go:88-136 | A decision to act has passed every gate and is fit for its executor |
| Engine.RecordForIs | internal/selfheal/engine.go:118-197 | The record of each course of events, field by field |
| Engine.SkipReasons | internal/selfheal/engine.go:107-136 | A skip before the decider says the menu is empty, a skip by the decider carries its reason and name |
| Engine.KindNames | internal/selfheal/subject_actions.go:33-54 | Kinds and their names correspond one to one |
| Engine.AssessActsIff | internal/selfheal/engine.go:88-136 | Exactly when the engine acts, with which action, and when it stays silent, in the policy's own fields and defaults |
| Engine.AppendRecord | internal/selfheal/engine.go:219-237 | Done if and only if an attempt lands; then one own version, the version directly before it with the record added, the trail cut from the front and nothing else changed |
| Engine.MaybeHeal | internal/selfheal/engine.go:85-197 | Budget is touched only by a decision to act; the executor starts if and only if granted under dryRun false; a record is left if and only if a decision was made and an append lands, and it is the record of that course of events |
| Engine.UpsertObituary | internal/controller/koroner.go:128-200 | The method is the recursive upsert on the same surroundings; which results go with which own commits: nothing, a newborn naming the death, a newborn and its first status, or one bump of the version directly before, all field by field; and when a death stays uncounted |
| Engine.BothFalseIff | internal/controller/koroner.go:132-173 | For any surroundings: both results are false without error exactly when the first read carries the episode or the race to create is lost |
| Engine.UncountedUpsert | internal/controller/koroner.go:128-200 | Neither failed nor counted nor raced: a committed version carries the episode; and what failure takes when reads are current and nothing fails |
| Retry.ApiObject.Get | internal/controller/koroner.go:132-136 | A cached read answers a committed version as old as it likes, an absence, or an error |
| Retry.ApiObject.Update | internal/controller/koroner.go:197 | An update commits exactly when nothing failed and the version is current, and then adds that one version |
| Retry.ApiObject.Create | internal/controller/koroner.go:153-159 | A creation commits exactly when nothing failed and no version exists |
| Retry.RetryOnConflict | internal/controller/koroner.go:176-198 | The loop is the recursive retry on the same surroundings; success is one own version, mutate of its direct predecessor, otherwise nothing of ours |
| Retry.PatchTemplate | internal/selfheal/actions.go:222-276 | A patch succeeds if and only if an attempt lands, then commits mutate of the version directly before it, never compounded, with the detail of that change; a failed one leaves no effect |
| Retry.WroteIffLands | internal/selfheal/actions.go:222-276 | A retried change is committed if and only if some attempt reads and updates without fault a version nobody has superseded, all earlier ones being lost to conflicts |
| Retry.BeatenByWrites | internal/controller/koroner.go:176-198 | With current reads and no faults it takes a foreign write per attempt to beat the retry |
| RateLimit.RateLimiter.Compact | internal/selfheal/ratelimit.go:50-56 | Compaction through the aliased slice leaves exactly the order-preserving filter of the old contents |
| RateLimit.RateLimiter.Append | internal/selfheal/ratelimit.go:62 | Appending in place or into a grown copy adds one entry at the end |
| RateLimit.RateLimiter.Reserve | internal/selfheal/ratelimit.go:46-64 | One call's answer and new contents, with slices of all other namespaces untouched and never shared |
| RateLimit.KeptIsFilter | internal/selfheal/ratelimit.go:51-56 | What is kept is every newer entry with its multiplicity and nothing else |
| RateLimit.PrunedAnswersAsFull | internal/selfheal/ratelimit.go:46-64 | The pruned limiter grants exactly when the complete log holds fewer than cap grants in the window |
| RateLimit.RunRefinesFullLog | internal/selfheal/ratelimit.go:46-64 | After any sequence of calls the next answer is the one the complete log gives |
| RateLimit.CallKeepsInv | internal/selfheal/ratelimit.go:46-64 | A call keeps agreement with the full log for every namespace and later cutoff, the log's order, and the bound on every window |
| RateLimit.SlidingWindowSafety | internal/selfheal/ratelimit.go:43-64 | For every namespace, instant and sequence of calls with changing caps, a window holds no more grants than the cap of its last grant |
| RateLimit.FixedCapSafety | internal/selfheal/ratelimit.go:43-64 | With caps at most m no window ever holds more than m grants |
| Memory.RoundUpSpec | internal/selfheal/actions.go:314-320 | Rounding gives the least MiB multiple not below the value |
| Memory.ScaledExact | internal/selfheal/actions.go:303-320 | What a bump returns, and nothing else: the least whole number of MiB not below the product rounded down, or the cap if that is lower |
| Memory.ScaledMonotone | internal/selfheal/actions.go:303-312 | Scale, round and clamp together are monotone, whatever the cap |
| Memory.CapLowersIff | internal/selfheal/actions.go:308-310 | A bump lowers memory if and only if the cap is below the current value |
| Memory.BumpsNeverDecrease | internal/selfheal/actions.go:303-312 | Repeated bumps from within the cap stay between start and cap and never decrease |
| Memory.BumpConverges | internal/selfheal/actions.go:303-320 | From a MiB multiple, floor((cap-q)/MiB)+1 bumps reach the cap if and only if q is the cap or the factor gains a byte on q |
| Memory.BumpPodSpecMemory | internal/selfheal/actions.go:286-301 | The loop bumps every container's memory limit and request, keeps names and every other resource, and adds or drops none |
| Memory.BumpKeepsContainer | internal/selfheal/actions.go:286-301 | Request stays within limit, no memory entry appears or vanishes, other resources keep their values |
| Memory.BumpTimesPointwise | internal/selfheal/actions.go:286-312 | After any number of bumps each limit and request is the repeated bump of its own start, still request within limit |
| Memory.RepeatedHealsReachCap | internal/selfheal/actions.go:286-320 | Repeated heals bring a container's limit to the cap exactly where the factor gains on it, and the request never above it |
| Memory.FactorAcceptedIff | internal/selfheal/actions.go:322-336 | A text is accepted, as the number it parses to, if and only if that is above one or a NaN |
| Patching.RestartWorkload | internal/selfheal/actions.go:87-108 | Refuses the kinds without a template untouched; succeeds if and only if an attempt lands, and then the restart annotation is now and all else as it was |
| Patching.BumpSettingsExact | internal/selfheal/actions.go:115-130 | The settings a policy yields: factor 1.5 or the text's own, no cap or the text's own; otherwise an error |
| Patching.Execute | internal/selfheal/actions.go:44-59 | Each action runs the executor of its name: what a successful run did to the workload, field by field, for each action, in one version of its own |
| Patching.BumpMemory | internal/selfheal/actions.go:115-145 | Refuses bad settings and kinds untouched; otherwise succeeds if and only if an attempt lands, and then every container of the version just before was bumped once and nothing else changed |
| Patching.RollbackDeployment | internal/selfheal/actions.go:150-179 | Refuses other kinds untouched; succeeds if and only if the Deployment is read, owns two sets and an attempt lands; then the spec is that of a second-newest owned set and labels, annotations and uid stay |
| Rollback.PreviousReplicaSet | internal/selfheal/actions.go:184-211 | Returns a set exactly when two are owned, and then a second order statistic of the owned ones |
| Rollback.SecondOfSorted | internal/selfheal/actions.go:205-210 | However a descending sort arranges ties, its second entry is a second order statistic |
| Rollback.OwnedMembers | internal/selfheal/actions.go:194-204 | The owned list keeps exactly the sets with the Deployment's UID, with multiplicity |
| Rollback.OrderIndependent | internal/selfheal/actions.go:205-210 | With distinct revisions the answer does not depend on the list's order |
| Decider.ApplicableActions | internal/selfheal/subject_actions.go:58-70 | The loop computes the menu |
| Decider.ApplicableIsIntersection | internal/selfheal/subject_actions.go:55-70 | The menu is exactly the allowlisted actions the kind supports |
| Decider.DeciderExecutorAgreement | internal/selfheal/decider.go:87-146 | For every kind, cause, allowlist, reply and decoder, an action chosen is allowlisted, supported, and accepted by its executor |
| Decider.ProductionActs | internal/controller/koroner.go:285-294 | Exactly when an action is chosen: the rules' if they act, otherwise the reply's within the menu |
| Decider.RuleDecideActs | internal/selfheal/decider.go:105-119 | Exactly when the rules act, and with what |
| Decider.LlmDecideActs | internal/selfheal/llm_decider.go:85-108 | Exactly when the reply's action is taken |
| Decider.DeciderNamed | internal/selfheal/decider.go:105-146 | Who decided, and why the rules alone did not act |
| Decider.LlmDeclinesUnclosed | internal/selfheal/llm_decider.go:165-177 | A reply without a closed object is declined, whatever the decoder would make of it |
| Decider.LlmActsOnObject | internal/selfheal/llm_decider.go:85-108 | Whatever prose surrounds it, the reply's first object is what is decoded and acted on |
| Decider.RulesMatchDocumentation | README.md:73-79 | With the full allowlist the tables and overrides give the documented recommendation for every kind and cause |
| Naming.SanitizeShape | internal/controller/koroner.go:96-102 | The result has only name characters, no outer hyphen, is no longer, and empty exactly when no letter or digit remains |
| Naming.SanitizeIs | internal/controller/koroner.go:96-102 | The result is the stretch between the outermost safe characters, each lowered or replaced by a hyphen |
| Naming.SanitizeIdempotent | internal/controller/koroner.go:96-102 | Sanitizing twice is sanitizing once |
| Naming.ObituaryNameValid | internal/controller/koroner.go:83-94 | At most 51 characters, and a valid DNS label if and only if the subject has a letter or digit, even when the cut lands on hyphens |
| Naming.ObituaryNameIs | internal/controller/koroner.go:83-94 | The first forty sanitized characters less the hyphens the cut leaves, a hyphen, ten digits of the key's hash |
| Naming.IssueKeyInjective | internal/controller/koroner.go:104-109 | The key determines its slash-free parts and the cause |
| Naming.DecimalRoundTrip | internal/controller/pod_controller.go:95 | The restart count printed in an episode reads back as itself |
| Naming.EpisodeInjective | internal/controller/pod_controller.go:95 | One pod's episode string determines the restart count |
| Topology.ControllerRef | internal/forensics/topology.go:77-87 | The first reference marked controller, else the first, else none, in the references' own fields |
| Topology.WalkUp | internal/forensics/topology.go:38-63 | The walk loop under any depth cap computes the recursive walk |
| Topology.OwnerChain | internal/forensics/topology.go:32-63 | The walk with a cap of six |
| Topology.ChainLinks | internal/forensics/topology.go:38-63 | On any graph, cyclic or not, at most cap records, each the controller reference of the object before it |
| Topology.SubjectIs | internal/controller/pod_controller.go:149-165 | The subject is the walk's last object if named, otherwise the pod itself, in the pod's namespace |
| Topology.MeetingWalksShareSubject | internal/controller/pod_controller.go:149-165 | Pods whose walks meet after equally many hops, or whose later one still reaches the end of the walk, get the same subject |
| Topology.DepthCapSplitsSubjects | internal/forensics/topology.go:29-32 | An owner graph on which the condition fails and two pods under one root part |
| Topology.SharedSubjectIff | internal/forensics/topology.go:29-63 | On a walk of distinct named owners that is exact: same subject if and only if the hops were equal or the later walk reaches the end |
| JsonScan.ExtractJSONObject | internal/selfheal/llm_decider.go:181-199 | The counting loop computes the slice from the first brace to where the count returns to zero |
| JsonScan.ExtractCharacterised | internal/selfheal/llm_decider.go:181-199 | The result is the minimally balanced slice at the first brace, and empty exactly when there is no brace or it never closes |
| JsonScan.MinimalObjectUnique | internal/selfheal/llm_decider.go:181-199 | A text has at most one minimally balanced prefix |
| JsonScan.ExtractRecovers | internal/selfheal/llm_decider.go:177-199 | An object is recovered from prose without an opening brace before it and anything after it |
| Detection.DetectPodDeath | internal/controller/pod_controller.go:181-228 | After the eviction gate, the least-index container meeting a crash condition, found exactly when there is one, with name, restart count, termination and waiting reason from its own status |
| Detection.UnknownOnlyByThreshold | internal/controller/pod_controller.go:191-260 | A container's death is Unknown if and only if only its restart count gave it away, no probe failed and the last termination explains nothing |
| Detection.DetectedCause | internal/controller/pod_controller.go:191-260 | From container status to cause: for each cause, exactly which reported termination, waiting reason and events give it, and that the others cannot occur |
| Detection.EvictionVerdict | internal/controller/pod_controller.go:183-189 | A watched eviction is NodePressure unless a liveness event makes it ProbeFailure |
| Detection.DetectedConfidence | internal/controller/pod_controller.go:191-260 | From container status to confidence and summary, the crash loop and the inferred kill told apart |
| Diagnosis.ProbeFailureIsMembership | internal/forensics/diagnosis.go:118-125 | A probe failure is found exactly when some event is an Unhealthy liveness event |
| Diagnosis.LivenessIs | internal/forensics/diagnosis.go:118-125 | A probe failure is an Unhealthy event whose message spells liveness somewhere, in whatever case |
| Diagnosis.VerdictIs | internal/forensics/diagnosis.go:72-112 | For each cause its confidence and summary: a crash is High only while the kubelet reports the crash loop, Medium when inferred from a kill |
| Diagnosis.JobVerdict | internal/controller/job_controller.go:75 | A failed Job is JobFailed unless a liveness event makes it ProbeFailure |
| Diagnosis.VerdictIgnoresEventOrder | internal/forensics/diagnosis.go:72-125 | Any reordering of the events leaves the diagnosis unchanged |
| Timeline.Events | internal/forensics/events.go:32-58 | Collecting and sorting in place gives the stable sort of the records, each with its event's last, else own, else first timestamp, type, reason and message |
| Timeline.StrictWeakOrder | internal/forensics/events.go:51-56 | The comparator is a strict weak order whose ties are equal timestamps |
| Timeline.StableSortKeepsGroups | internal/forensics/events.go:51-56 | Entries with one timestamp keep their collection order |
| Timeline.StableSortUnique | internal/forensics/events.go:51-56 | Only one sorted order keeps all ties in order, so every stable sort returns it |
| Timeline.TimelineShape | internal/forensics/events.go:51-58 | Dated entries by time, undated last, ties in order, nothing lost |
| Sorting.Sort | internal/forensics/events.go:51-56 | The in-place sort equals repeated insertion |
| Sorting.InsertAllSorts | internal/forensics/events.go:51-56 | Under any comparator whose incomparability chains, the result is sorted and a permutation |

## Left out

- Scale: exact real arithmetic; the rounding of float64 and int64 overflow are not modelled.
- ScaledQuantity: quantities are non-negative byte counts; parsing, printing and negative quantities are not modelled.
- FirstStatus: occurrence counts are unbounded integers, without int32 wrap-around.
- PreviousReplicaSet: sort.Slice is replaced by an in-place insertion sort; SecondOfSorted covers every descending arrangement of ties.
- Events: sort.SliceStable is replaced by an in-place insertion sort; StableSortUnique shows any stable sort gives the same list.
- ParseDecision: JSON decoding and space trimming are a parameter; brace balance is over raw characters, strings and escapes included.
- ObituaryNameValid: SHA-256 is a parameter with the shape of a lower-case hex digest; Unicode lower-casing is a parameter.
- RecordsCohere: assumes that the issue keys that occur do not collide in their ten hash digits.
- MaybeHeal: one clock reading serves the limiter and the record; the limiter's lock is taken as the atomicity of one call.
- Append: Go's growth of a slice's capacity is some growth; only the contents are observable.
- ParseFactor: which texts strconv.ParseFloat accepts, and as what, is a parameter.
- BumpedBy: the result of bumping by a NaN or infinite factor depends on the platform and is a parameter `wild`.
- BumpMemory: the texts of summarizeMemory and diffDetail are a parameter `describe`.
- RollbackDeployment: the list of ReplicaSets is given; its own read errors and the revision texts of the detail are not modelled.
- The deletePod executor and the Deployment controller's reaction to a patch; in the state machine an executor run makes at most one cluster change, as each executor makes at most one write or deletion, and has any result.
- The Job controller as a component of its own: its upsert and heal steps are the same thread with another episode string.
- Deleting, expiring or hand-editing an obituary; foreign writes to an obituary touch metadata only.
- API calls that commit and still report an error; restarts of the operator, which empty the limiter; liveness of retries under stale reads.
- Zero update attempts in the state machine: a bound of zero behaves there as one; the program's bound is fixed and positive.
- Policy resolution, namespace selectors and defaults beyond the gates' values: the policy and the selector's answer are inputs of a step.
- Log tails, metrics, narration, prompts, transport and secrets: inputs or absent; summary and reason texts are datatypes, labels and conditions are not modelled.
- Causes, actions and kinds are datatypes with one constructor per constant and one for every other string.
