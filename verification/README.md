# Verification model of the placement API

The project models the parts of the API whose correctness is hardest to see from one function: rules that are
written twice (in a Python service and in PostgreSQL constraints or triggers), state that outlives a crash, and
loops whose inputs come from a language model. Tables are maps and sequences; a unique, check, foreign key or
exclusion constraint, or a trigger, is a guard that refuses a step. SHA-256 is taken to be injective, and ids are
opaque values. Clocks, the network, the language model and the tools are parameters over which every statement is
quantified.

Where the source keeps state, a component has three layers. Functions on values say what one operation does to the
tables. A state machine says what many callers can do, and invariants are proved for every run of it. A class holds
the same tables in fields and performs the statements in the order of the source; each of its methods is proved to
produce the new tables and the reply that the functions give, and where the state machine splits an operation into
steps, a lemma shows that a call that nobody interrupts is one of its runs.

| Component | Files |
|---|---|
| Rule evaluation in three values | `Json.dfy`, `Evaluator.dfy`, `Fragility.dfy`, `Thresholds.dfy` |
| Facts of a student, and the content key | `StudentFacts.dfy`, `EvaluationKey.dfy` |
| Policy and requirement lifecycle | `PolicyRecords.dfy`, `PolicyLifecycle.dfy`, `CommandRules.dfy`, `DefinitionGuards.dfy` |
| Decision cache and replay | `DecisionCache.dfy`, `DecisionFreshness.dfy`, `PolicyChoice.dfy`, `EligibilityStore.dfy` |
| Index generation and publication | `Manifest.dfy`, `Publication.dfy`, `RunReadiness.dfy`, `GenerationService.dfy` |
| Binding revisions and events | `Bindings.dfy`, `BindingLifecycle.dfy`, `BindingStore.dfy` |
| Conversation log | `Conversation.dfy` |
| Agent orchestration | `Agent.dfy`, `AgentProperties.dfy`, `Orchestrator.dfy` |
| Ingestion jobs and leases | `Ingestion.dfy`, `IngestionLeases.dfy`, `IngestionStore.dfy`, `LeaseRecovery.dfy` |

## What the proofs say

**Decisions.** After any interleaving of policy commands, requirement commands and evaluations, a decision taken on
a published requirement version equals a fresh evaluation of its stored snapshot against the rules and criteria the
tables hold now, with the same reasons up to order. The order matters because the queries have no ORDER BY. At most
one decision exists for a tenant and a key, every evaluation with that key answers with it, and after a unique
violation the fallback query finds it although it does not name the tenant. For any stored decision, taken on a
draft or not, and for any answer, the exact condition of freshness is that the decision has as many requirement
reasons as there are applicable criteria. An ELIGIBLE verdict survives whatever may become known about the student
exactly when no applicable rule is fragile; the FAIL of one rule does exactly when the rule is not mendable, and one
such rule settles NOT_ELIGIBLE. On rules and criteria that store numeric limits the verdict is NOT_ELIGIBLE exactly
when a known fact misses its limit, ELIGIBLE exactly when every fact is known and keeps it, and UNKNOWN otherwise.

**Lifecycle.** The events of a policy version are numbered 1 to n over the first n statuses, rules are fixed from
REVIEW on, and activations of one place and scope stay apart, so no query for the active policy finds two. A command is
accepted exactly when its rows allow it, and an activated version is chosen from its start until its end. Whoever
issues the statement, the triggers keep the rules of APPROVED and ACTIVE versions and the criteria of published ones,
except from an update that moves a row of another version into them.

**Publication.** With a crash possible between the statements, also after a part of an upsert, and at most one
caller on a generation row, every committed row is FAILED or PUBLISHED, PUBLISHED is never left, and every pointer
names a published generation of a run of its own binding whose manifest was accepted. However callers overlap, only
completed runs with chunks are ever worked on, recorded or pointed to. In any state at all, a
published row stays published exactly when no caller is left on it that may still fail. Verification succeeds
exactly when the chunk hashes of the run are pairwise distinct and its points still carry the tag.

**Bindings.** Whoever inserts rows, the guards keep events 1 to k and revisions 1 to n in order; the guards accept
exactly what the service would insert next; no proposal or approval is written on bytes that do not verify or on a
document that has changed; a call that succeeded once can be issued again at any later time without effect.

**Agent.** Whatever the model answers, the messages in memory are the transcript of the durable log at every
question. Every assistant row with calls is followed by exactly their answers until a reply within the step limit
has a call whose row does not fit its columns or is refused, and never again after that. The decision is that of the
last evaluation request, the text that the student reads says what was decided, and the budgets bound questions and
handler runs.

**Leases.** A job is leased at most three times and as often as its attempt column says, leases of a job do not
overlap while every update between them reports RUNNING, and leases and remaining attempts add up to three for each
job. A job is left alone while its lease lasts and is taken up again when the lease is over.

## Where the code differs from what one would expect

The model follows the code in each of these.

- `evaluate` does not look at `published_at`; only the agent path does. A decision taken on a draft requirement
  version enters the cache and answers later evaluations of the published version
  (`DraftDecisionExample.DraftDecisionGoesStale`). `DecisionFreshness.AnswerIsFreshIff` says exactly which answers
  are stale, `DecisionFreshness.AgreesNowIff` which stored decisions are, and `DecisionFreshness.AgreesForeverIff`
  which can never become so.
- The schema admits the operators `=` and `BETWEEN` for a criterion, the evaluator knows `==` and neither of those,
  so such a criterion can never pass (`EvaluatorProperties.UnsupportedOperatorBlocksEligibility`); the other seven
  can (`EvaluatorProperties.SchemaOperatorPassesIff`).
- Two callers that both retry one FAILED generation row can leave a published pointer on a FAILED generation
  (`IndexAgreement.TwoRetriersUnpublish`); `PublicationSafety.StaysPublishedIffQuiet` is the exact condition.
- The assistant row is committed before the rows of its calls. Name and id of a call come from the model and go into
  columns of 100 characters, so a longer tool name stops the run there, and the incomplete transcript is sent to the
  model in every later run (`AgentProperties.LongNameBreaksForGood`). `AgentProperties.TranscriptCompleteIff` is the
  exact condition on the replies.
- `propose` looks for its request id among the bindings only. With the request id of an earlier approval it passes
  every check of the service and is refused by a unique constraint instead of by IDEMPOTENCY_CONFLICT
  (`BindingLifecycle.ProposalRefusedByDatabaseIff`, `RefusedProposalExample.ReusedApprovalRequest`). A reason with a
  zero character and a caller without a user row pass the service as well, and only the database refuses them
  (`RefusedProposalExample.ZeroCharacterReason`, `RefusedProposalExample.CallerWithoutUserRow`).
- The freeze of rules and criteria is written twice. The criterion trigger admits what the service admits; the rule
  trigger also admits rules in REVIEW and ARCHIVED (`DefinitionGuards.RuleTriggerExceedsServiceIff`). For an update
  both look only at the version that the row had, so a rule can be moved into an ACTIVE version
  (`DefinitionGuards.MovedRuleIsAdmitted`), and a delete that they do not refuse has no effect, because NEW is null.
  `DefinitionGuards.StatementStalesIff` says exactly when a statement past the service can turn a decision stale.
- `update_job` fails the run at the first FAILED or CANCELLED, not only when the attempts are used up as its comment
  says (`IngestionLeases.RunFailsWithItsJob`, `IngestionLeases.RunFailsWithAttemptsLeft`). It also accepts the status
  COMPLETED, which the table then refuses (`IngestionLeases.StatusRefusedIff`), and QUEUED, after which a second
  worker can lease the job while the first lease lasts (`IngestionLeases.RequeuedLeasesOverlap`).
- A rule that reads a whole object can be overturned by a key added inside it
  (`EvaluatorProperties.ReadingAnObjectIsNotMonotone`). For ELIGIBLE the exact condition is
  `Fragility.EligibleSurvivesIff`, for the FAIL of one rule `Fragility.FailSurvivesIff`. NOT_ELIGIBLE survives when one
  such rule is not mendable (`Fragility.NotEligibleSurvives`), and may survive otherwise, because rules that are
  mendable one by one can conflict (`Fragility.MendableRowsMayConflict`).

## Model

| member | source | states |
|---|---|---|
| `Evaluator.ResolveFieldPath` | apps/api/app/core/engine/evaluator.py:36-47 | the loop over the dotted keys finds what following them one by one finds, and null as soon as a key is missing or the value is no object |
| `Evaluator.AggregateResults` | apps/api/app/core/engine/evaluator.py:74-88 | the loop with its early exit returns the worst result in the list, FAIL before UNKNOWN before PASS |
| `Evaluator.CollectDomain` | apps/api/app/core/engine/evaluator.py:102-126 | the loop over one domain collects the reasons of the applicable rows in order, and raises as soon as one row raises |
| `Evaluator.EvaluateSnapshot` | apps/api/app/core/engine/evaluator.py:91-140 | aggregating two domains and then combining them is one aggregation over all reasons of both; an applicable row whose number is beyond its limit gives NOT_ELIGIBLE, and where every applicable row is a numeric limit the verdict is ELIGIBLE iff each number keeps its limit |
| `Thresholds.NumbersByOrder` | apps/api/app/core/engine/evaluator.py:13-24 | on numbers each of the six operators passes iff the numbers stand in that order, fact on the left |
| `Thresholds.BooleansAreNumbers` | apps/api/app/core/engine/evaluator.py:13-28 | true is one and false is zero on either side of every operator |
| `Thresholds.TextsByFirstDifference` | apps/api/app/core/engine/evaluator.py:13-24 | texts are ordered at their first difference, and a proper beginning is less |
| `Thresholds.ListsByFirstDifference` | apps/api/app/core/engine/evaluator.py:17-24 | lists are ordered as their first unequal items are, and without one by length |
| `Thresholds.OtherKindsAreUnknown` | apps/api/app/core/engine/evaluator.py:31-33 | every other pair of kinds cannot be ordered and gives UNKNOWN |
| `Thresholds.MembershipMeans` | apps/api/app/core/engine/evaluator.py:25-28 | IN is an equal item of a list, a part of a text or a key of an object |
| `Thresholds.EqualityMeans` | apps/api/app/core/engine/evaluator.py:13-16 | lists and objects are equal part by part |
| `Thresholds.FactPaths` | apps/api/app/core/services/eligibility_service.py:141-146 | where the grade, the open backlogs and the active offers are found in a snapshot |
| `Thresholds.CriterionCompares` | apps/api/app/core/engine/evaluator.py:50-71 | a stored criterion compares the fact under its code with what its operand holds under value, else with the whole operand, and reports both |
| `Thresholds.SkippedCriterion` | apps/api/app/core/engine/evaluator.py:104-107 | a criterion that is neither required nor optional leaves every evaluation as it is without it |
| `Thresholds.AppliedCriterion` | apps/api/app/core/engine/evaluator.py:104-107 | a required and an optional criterion alike add their reason |
| `Thresholds.RuleCompares` | apps/api/app/core/services/eligibility_service.py:182-184 | a policy rule is read at its own code unless its definition names a field, and compared with the value of the definition |
| `Thresholds.FalsyIsPassedOver` | apps/api/app/core/engine/evaluator.py:54-66 | a field that Python takes for false is passed over for the code, such an operand stands for no value, and any other field that is no text raises |
| `Thresholds.ThresholdsDecide` | apps/api/app/core/engine/evaluator.py:91-140 | on stored rules and criteria with numeric limits: NOT_ELIGIBLE iff a known fact misses one, ELIGIBLE iff all are known and kept, else UNKNOWN |
| `Thresholds.MinimumGrade` | apps/api/app/core/engine/evaluator.py:91-140 | the verdict of one stored minimum grade on the facts of a student |
| `Evaluator.WorstConcat` | apps/api/app/core/engine/evaluator.py:74-138 | aggregation of a concatenation is the join of the aggregations |
| `EvaluatorProperties.SplitRoundTrip` | apps/api/app/core/engine/evaluator.py:41 | splitting a path at its dots loses nothing: joining gives the path back, and no key holds a dot |
| `EvaluatorProperties.WorstMeaning` | apps/api/app/core/engine/evaluator.py:74-88 | the result is FAIL iff some rule fails, and PASS iff all rules pass |
| `EvaluatorProperties.DomainReasonsConcat` | apps/api/app/core/engine/evaluator.py:102-126 | evaluating the rows of two lists one after the other is evaluating their concatenation, errors included |
| `EvaluatorProperties.RowOrderIrrelevant` | apps/api/app/core/engine/evaluator.py:91-140 | permuting rules and criteria changes neither the verdict, nor whether evaluation raises, nor the reasons as a multiset |
| `EvaluatorProperties.InformationMonotone` | apps/api/app/core/engine/evaluator.py:9-71 | when a snapshot is only refined and no rule reads an object, evaluation still returns, and a verdict other than UNKNOWN stays |
| `EvaluatorProperties.ReadingAnObjectIsNotMonotone` | apps/api/app/core/engine/evaluator.py:13-14 | a concrete rule on an object whose verdict a refinement turns from ELIGIBLE to NOT_ELIGIBLE |
| `Fragility.CanBecomeIff` | apps/api/app/core/engine/evaluator.py:13-16 | the recursive test says exactly whether filling in nulls and adding keys can make one value equal another |
| `Fragility.EligibleSurvivesIff` | apps/api/app/core/engine/evaluator.py:9-140 | an ELIGIBLE verdict survives every refinement iff no applicable rule is fragile: none reads an object with == or IN, or with != or NOT_IN where that object can become the expected value or a listed one |
| `Fragility.FragileRowOverturns` | apps/api/app/core/engine/evaluator.py:133-138 | each fragile rule has a refinement of the snapshot that makes the verdict NOT_ELIGIBLE |
| `Fragility.SturdyStaysEligible` | apps/api/app/core/engine/evaluator.py:133-138 | without a fragile rule every refinement of the snapshot is ELIGIBLE |
| `Fragility.FailSurvivesIff` | apps/api/app/core/engine/evaluator.py:9-71 | the FAIL of a rule survives every refinement iff the rule is not mendable, and a mendable rule can be brought to pass; mendable is reading an object with != or NOT_IN, or with == or IN where it can become the expected value or a listed one |
| `Fragility.NotEligibleSurvives` | apps/api/app/core/engine/evaluator.py:74-138 | one applicable rule that fails and is not mendable keeps the verdict at NOT_ELIGIBLE under every refinement, whatever the other rules read |
| `Fragility.MendableRowsMayConflict` | apps/api/app/core/engine/evaluator.py:13-14 | two failing rules, each mendable, that no refinement makes pass together |
| `EvaluatorProperties.UnknownIsNeverSilent` | apps/api/app/core/engine/evaluator.py:4-33 | a missing value, a missing operator and an operator outside the list all give UNKNOWN |
| `EvaluatorProperties.OperatorsAreDual` | apps/api/app/core/engine/evaluator.py:13-28 | each operator has its opposite, UNKNOWN staying UNKNOWN, so that == fails where != passes, and so on |
| `EvaluatorProperties.OrderingsMirror` | apps/api/app/core/engine/evaluator.py:17-24 | swapping both sides of an ordering turns it around |
| `EvaluatorProperties.OrderIsTotal` | apps/api/app/core/engine/evaluator.py:13-24 | among values that can be ordered exactly one of less, equal and greater passes, and the other operators follow from these |
| `Json.CompareSame` | apps/api/app/core/engine/evaluator.py:13-24 | two values that can be ordered compare as the same iff they are equal |
| `EvaluatorProperties.UnsupportedOperatorBlocksEligibility` | apps/api/app/infrastructure/models/policy.py:190 | an applicable criterion with the schema operator = or BETWEEN rules out ELIGIBLE |
| `EvaluatorProperties.SchemaOperatorPassesIff` | apps/api/app/infrastructure/models/policy.py:190 | of the nine operators the schema admits, exactly = and BETWEEN pass on no values |
| `StudentFacts.CountLive` | apps/api/app/core/services/eligibility_service.py:103-139 | the counting loop returns the number of items of the student whose event with the highest version counts |
| `StudentFacts.BuildSnapshot` | apps/api/app/core/services/eligibility_service.py:67-146 | the grade of the record with the highest version when it is KNOWN, the number of backlogs last OPENED, and the number of offers last RECEIVED, ACCEPTED or TERMS_REVISED |
| `StudentFacts.FactsIgnoreRowOrder` | apps/api/app/core/services/eligibility_service.py:88-139 | the facts, and so the key, depend on which rows exist and not on their order |
| `StudentFacts.EventDecidesItsItem` | apps/api/app/core/services/eligibility_service.py:110-139 | a new latest event adds its own item if it opens a backlog or makes an offer active, removes it otherwise, and touches no other |
| `EvaluationKey.DumpsInjective` | apps/api/app/core/services/eligibility_service.py:198 | two snapshots with the same sorted JSON text are the same |
| `EvaluationKey.KeyInputInjective` | apps/api/app/core/services/eligibility_service.py:197-200 | two key texts are equal only for equal facts, policy version and requirement version; ids enter as the text of their 128 bits |
| `PolicyLifecycle.ApplyKeepsInv` | apps/api/app/core/services/policy_service.py:76-221 | every command keeps the event logs, the placement of activations and their separation |
| `PolicyLifecycle.LogOfEveryRun` | apps/api/app/core/services/policy_service.py:142-244 | in every run the events of a version are numbered 1 to n over the first n statuses and end at its current status |
| `PolicyLifecycle.LatestIsCount` | apps/api/app/core/services/policy_service.py:223-233 | in a log numbered from 1 the highest number is the number of events |
| `PolicyLifecycle.RulesFreezeInReview` | apps/api/app/core/services/policy_service.py:113-131 | once a version has reached REVIEW, no run of commands changes its rules |
| `CommandRules.AcceptedIff` | apps/api/app/core/services/policy_service.py:76-221 | in every state of every run a command is accepted iff the rows allow it, spelled out for each command, and otherwise changes nothing |
| `CommandRules.DisjointIff` | apps/api/app/infrastructure/models/policy.py:120-130 | two intervals pass the exclusion constraint iff no moment lies in both |
| `CommandRules.DefinitionsOfEveryRun` | apps/api/app/infrastructure/models/policy.py:188-193 | in every run the codes of the rules of a version and of the criteria of a requirement are distinct, and each criterion has the shape of its applicability |
| `PolicyLifecycle.ActivateKeepsActivations` | apps/api/app/core/services/policy_service.py:188-204 | an accepted activation keeps all activations of one place and scope disjoint |
| `PolicyLifecycle.ArchiveKeepsActivations` | apps/api/app/core/services/policy_service.py:206-221 | closing the open activation keeps them disjoint and every interval valid |
| `PolicyLifecycle.OpenAtMostOne` | apps/api/app/core/services/policy_service.py:209-217 | a version has at most one open activation, so the lookup that allows one row never finds two |
| `PolicyLifecycle.OneActivationPerActivatedVersion` | apps/api/app/core/services/policy_service.py:188-204 | a version owns an activation iff it has reached ACTIVE, and never two |
| `PolicyLifecycle.NeverAmbiguous` | apps/api/app/core/services/eligibility_service.py:40-63 | after any run neither the archive lookup nor the query for the active policy finds two rows, at any time |
| `PolicyLifecycle.OnlyOneTenantIsTouched` | apps/api/app/core/services/policy_service.py:76-221 | after any run, a command changes no version, rule, event, activation, requirement version or criterion of another tenant |
| `PolicyLifecycle.OnlyStaffApproves` | apps/api/app/core/services/policy_service.py:149-178 | only staff of the tenant takes a version to APPROVED or ACTIVE, and only from the status before |
| `DefinitionGuards.RuleTriggerExceedsServiceIff` | apps/api/migrations/versions/be3b6aafad0b_m2_remediation_schema.py:179-195 | the trigger admits every rule the service adds, and further exactly rules of versions in REVIEW and ARCHIVED |
| `DefinitionGuards.CriterionTriggerIsServiceRule` | apps/api/migrations/versions/be3b6aafad0b_m2_remediation_schema.py:197-213 | the trigger admits a new criterion iff the service of its tenant does |
| `DefinitionGuards.RulesKeptIff` | apps/api/migrations/versions/be3b6aafad0b_m2_remediation_schema.py:185-189 | an accepted statement of any client leaves the rules of an APPROVED or ACTIVE version as they are, unless it moves a rule of another version into it, which adds one |
| `DefinitionGuards.MovedRuleIsAdmitted` | apps/api/migrations/versions/be3b6aafad0b_m2_remediation_schema.py:185 | a concrete update that moves a rule of a draft into an ACTIVE version |
| `DefinitionGuards.CriteriaKeptIff` | apps/api/migrations/versions/be3b6aafad0b_m2_remediation_schema.py:203-207 | the same for the criteria of a published requirement version |
| `DefinitionGuards.StatementStalesIff` | apps/api/migrations/versions/be3b6aafad0b_m2_remediation_schema.py:185-195 | some raw insert turns an agreeing decision stale iff its policy is neither APPROVED nor ACTIVE, and some raw statement does iff that holds or there is a rule of another such version to move |
| `DecisionReplay.NextKeepsMachine` | apps/api/app/core/services/eligibility_service.py:148-248 | each statement of each evaluation and each command keeps what the replay guarantee rests on |
| `DecisionReplay.ReplayGuarantee` | docs/ONBOARDING.md:1159-1163 | every decision taken on a published requirement version equals a fresh evaluation against the rules and criteria of now |
| `DecisionFreshness.AgreesNowIff` | apps/api/app/core/services/eligibility_service.py:202-229 | a stored decision equals a fresh evaluation now iff it has as many requirement reasons as its requirement version has applicable criteria |
| `DecisionFreshness.AnswerIsFreshIff` | apps/api/app/core/services/eligibility_service.py:202-248 | an answer equals what this evaluation would have computed from the rows it read iff the decision has as many requirement reasons as those rows have applicable criteria |
| `DecisionFreshness.AgreesForeverIffPublished` | apps/api/app/agent/m8_authority.py:51-77 | a decision that agrees with the tables now agrees after every further run iff its requirement version is published |
| `DecisionFreshness.AgreesForeverIff` | apps/api/app/core/services/requirement_service.py:119-122 | any stored decision agrees after every further run iff its requirement version is published and it covers the applicable criteria |
| `DecisionFreshness.NextKeepsGrounded` | apps/api/app/core/services/eligibility_service.py:185-195 | every step keeps that what an evaluation read is a first part of the criteria there are now |
| `DecisionReplay.CacheHitIsFresh` | apps/api/app/core/services/eligibility_service.py:202-209 | whichever row an evaluation answers with, inserted, looked up or recovered, it is what its own facts and rows evaluate to, when both read the published version |
| `DecisionReplay.OneDecisionPerKey` | apps/api/app/infrastructure/models/eligibility.py:31 | at most one row per tenant and key, and all evaluations with that key answer with that row |
| `DecisionReplay.RecoverySeesTheTenantsRows` | apps/api/app/core/services/eligibility_service.py:236-241 | the fallback query, which names no tenant, sees exactly the rows of the tenant |
| `DecisionReplay.RecoveryFindsTheRow` | apps/api/app/core/services/eligibility_service.py:234-246 | after a unique violation the fallback query finds the row of that key |
| `DecisionReplay.NeverAmbiguousAnswer` | apps/api/app/core/services/eligibility_service.py:60-63 | no evaluation ends because of two policies or two decisions |
| `DecisionReplay.AgentAnswersAreFresh` | apps/api/app/agent/m8_authority.py:80-89 | in runs where evaluations go through the agent, every answer equals a fresh evaluation |
| `DraftDecisionExample.DraftDecisionGoesStale` | apps/api/app/core/services/eligibility_service.py:203-209 | a reachable run in which an evaluation of a published version is answered with a decision on its draft that no longer holds |
| `EligibilityStore.Store.CreateVersion` | apps/api/app/core/services/policy_service.py:76-111 | a new version of this tenant, year and scope is in DRAFT with a log that ends in DRAFT; logs and activations stay in order, nothing recorded is lost, and a refusal changes nothing |
| `EligibilityStore.Store.AddRule` | apps/api/app/core/services/policy_service.py:113-140 | accepted iff the version is the tenant's, in DRAFT or PROCESSING and without a rule of this code; the rules of the version then grow by this one; logs and activations stay in order, and a refusal changes nothing |
| `EligibilityStore.Store.Transition` | apps/api/app/core/services/policy_service.py:142-183 | one step along the lifecycle with its event iff the version is the tenant's, the target is the next status and, to approve or activate, the role is staff; else nothing |
| `EligibilityStore.Store.RecordEvent` | apps/api/app/core/services/policy_service.py:223-244 | the event numbered after the latest one is appended |
| `EligibilityStore.Store.Activate` | apps/api/app/core/services/policy_service.py:188-204 | transition and an activation with the requested start and end together, or neither; the version then is ACTIVE and its log says so |
| `EligibilityStore.Store.Archive` | apps/api/app/core/services/policy_service.py:206-221 | transition and closing together, or neither; the version then is ARCHIVED, its open activation ends now and began before, and no other row is different |
| `EligibilityStore.Store.AddCriterion` | apps/api/app/core/services/requirement_service.py:114-137 | accepted iff the requirement is the tenant's, not published and without a criterion of this code, and the shape fits the applicability; the criteria then grow by this one, frozen rows stay frozen, and a refusal changes nothing |
| `EligibilityStore.Store.Publish` | apps/api/app/core/services/requirement_service.py:166-177 | the version is published, and publishing it again at any time changes nothing, not even the time |
| `EligibilityStore.Store.EvaluateEligibility` | apps/api/app/core/services/eligibility_service.py:148-248 | an uninterrupted evaluation leaves the tables and gives the answer of its steps: a row with the key of the facts, the chosen version and the requirement, and a new row only with the evaluation of the rows that were read |
| `PolicyChoice.ChoosesIff` | apps/api/app/core/services/eligibility_service.py:37-65 | in every interleaving a version is chosen iff an activation of the tenant for the year of the opportunity has begun, is not over and belongs to an ACTIVE version; else the evaluation fails with the error of its case |
| `PolicyChoice.ActivatedIsChosenIff` | apps/api/app/core/services/policy_service.py:188-204 | after an accepted activation the version is chosen iff the year fits and the time lies between the requested start and end |
| `PolicyChoice.OnlyActiveIsChosen` | apps/api/app/core/services/eligibility_service.py:49 | a version that is not ACTIVE, or of another tenant, is never chosen |
| `EligibilityStore.AloneIsAnExecution` | apps/api/app/core/services/eligibility_service.py:148-248 | an uninterrupted evaluation is one of the interleavings |
| `Manifest.ValidManifestMeaning` | apps/api/app/rag/contracts.py:192-205 | the five conditions hold iff the expected list is non-empty with distinct ids and the fetched list is a permutation of it |
| `Manifest.QdrantAdapter.UpsertPoints` | apps/api/app/rag/qdrant_adapter.py:41-57 | the index after an upsert, later points replacing earlier ones |
| `Manifest.QdrantAdapter.FetchManifest` | apps/api/app/rag/qdrant_adapter.py:59-107 | the pages of the scroll together are the whole listing: each point of the generation with a chunk hash once, and nothing else |
| `PublicationSafety.NextKeeps` | apps/api/app/rag/generation_service.py:82-208 | every step of every caller, a crash included, keeps rows, pointers, callers and tagged points sound |
| `PublicationSafety.CrashConsistentPublication` | apps/api/app/rag/generation_service.py:124-208 | committed rows are FAILED or PUBLISHED, a return names a published generation, and each pointer names a published generation of a run of its binding with an accepted manifest |
| `PublicationSafety.StaysPublishedIffQuiet` | apps/api/app/rag/generation_service.py:95-179 | in any state a published row stays published in every further run iff no caller on it is embedding, upserting, verifying or about to commit FAILED |
| `PublicationSafety.PublishedForGood` | apps/api/app/rag/generation_service.py:95-113 | once callers have come one at a time up to publication, no further run changes the row |
| `IndexAgreement.UpsertTouchesOnlyTheRun` | apps/api/app/rag/generation_service.py:141-166 | an upsert tags exactly the points of the space whose chunk hash is in the run and leaves all others |
| `IndexAgreement.VerificationSucceedsIff` | apps/api/app/rag/generation_service.py:172-179 | whatever others did since the upsert, verification succeeds iff the chunk hashes of the run are distinct and every point of the run still carries the tag of this generation |
| `IndexAgreement.VerificationSucceedsIffDistinct` | apps/api/app/rag/generation_service.py:141-179 | with no writer in between, it succeeds iff the chunk hashes of the run are distinct, whatever earlier crashed or failed attempts left behind |
| `IndexAgreement.OnlyFirstPointerRaces` | apps/api/app/rag/generation_service.py:185-207 | the last commit is refused iff the caller saw no pointer and another caller has inserted one since |
| `IndexAgreement.TwoRetriersUnpublish` | apps/api/app/rag/generation_service.py:95-111 | a run of two retries of one row that ends with a published pointer on a FAILED generation |
| `GenerationService.Service.BuildPoints` | apps/api/app/rag/generation_service.py:135-162 | the loop builds the points and the expected manifest of the chunks in order |
| `GenerationService.Service.SwapPointer` | apps/api/app/rag/generation_service.py:181-208 | pointer and status are committed together, or the tables stay as they were |
| `GenerationService.Service.GenerateIndex` | apps/api/app/rag/generation_service.py:40-208 | committed tables, index and result of a whole call, for every behaviour of the providers and every row found: which requirement on the run fails decides the error and writes nothing, a failure on the way leaves a FAILED row and all pointers, and a return names the row and pointer written |
| `GenerationService.AttemptedRuns` | apps/api/app/rag/generation_service.py:82-208 | on a ready run: which answer of the providers leads to which error, and the rows, pointers and points it leaves |
| `RunReadiness.OnlyCompletedRuns` | apps/api/app/rag/generation_service.py:52-70 | in every run, whoever overlaps: each committed generation, each caller at work and each pointer belongs to a run that exists, is completed and has chunks, the pointer to one of its own binding |
| `GenerationService.AloneIsAnExecution` | apps/api/app/rag/generation_service.py:40-208 | an uninterrupted call is one of the runs of the protocol |
| `BindingLifecycle.NextKeepsInv` | apps/api/migrations/versions/d72e620b7302_m6_binding_lifecycle.py:119-211 | the guards keep the chains whoever inserts: the service or any other client |
| `BindingLifecycle.ChainOfEveryRun` | apps/api/migrations/versions/d72e620b7302_m6_binding_lifecycle.py:107-188 | events 1 to k with the first k states, and revisions 1 to n linked, all but the last revoked |
| `BindingLifecycle.AtMostOneOpen` | apps/api/app/rag/binding_service.py:116-118 | two bindings of one source and policy version are never open at once |
| `BindingLifecycle.MaxSequenceIsCount` | apps/api/migrations/versions/d72e620b7302_m6_binding_lifecycle.py:173-177 | in a history numbered from 1 the highest number the trigger reads is the number of events the service counts |
| `BindingLifecycle.EventGuardIsTransitionTable` | apps/api/app/rag/contracts.py:89-94 | the event trigger and the sequence check accept an event iff the transition table of the service allows it next, under an unused request id |
| `BindingLifecycle.RevisionGuardIsServiceRule` | apps/api/migrations/versions/d72e620b7302_m6_binding_lifecycle.py:120-199 | both triggers and the constraints accept a revision iff its source has the hash of the document, all earlier revisions are revoked and the service would build that row |
| `BindingLifecycle.FreshProposalSucceedsIff` | apps/api/app/rag/binding_service.py:98-122 | with a fresh request id a proposal succeeds iff the caller is staff and a user, the reason is valid without a zero character, the policy version exists, the bytes verify, a source has the hash of the document, and no earlier revision is left that is not revoked; without user or text it is the database that refuses |
| `BindingLifecycle.FreshMoveSucceedsIff` | apps/api/app/rag/binding_service.py:130-159 | the same for approval, of a proposed binding whose bytes verify and whose document still has its hash, and for revocation, of an approved one |
| `BindingLifecycle.ProposalRefusedByDatabaseIff` | apps/api/app/rag/binding_service.py:106-121 | exactly when a proposal passes the checks of the service and is refused by the database |
| `RefusedProposalExample.ReusedApprovalRequest` | apps/api/app/rag/binding_repository.py:64-70 | a run in which a storable proposal that passes every check is refused because its request id is that of an approval |
| `RefusedProposalExample.ZeroCharacterReason` | apps/api/app/rag/binding_service.py:63-65 | a proposal in a reachable state that passes every check and is refused because its reason holds a zero character |
| `RefusedProposalExample.CallerWithoutUserRow` | apps/api/migrations/versions/d72e620b7302_m6_binding_lifecycle.py:43-46 | the same because its caller has no user row |
| `BindingLifecycle.ApprovalNeedsOnlyTheSource` | apps/api/app/rag/binding_service.py:149-154 | the source of a reachable binding exists and has its hash, so approval fails iff the document is gone, has another hash or its bytes do not verify, each with its error |
| `BindingLifecycle.WritesOnlyWhatWasRead` | apps/api/app/rag/source_service.py:36-50 | a proposal or an approval that changes anything has bytes that verify and a source with the hash of the document |
| `BindingLifecycle.UnreadableIsRefused` | apps/api/app/rag/source_service.py:46-50 | when the bytes do not verify nothing is written, no proposal succeeds, and an approval is answered only as the repetition of a recorded one |
| `BindingLifecycle.ReissueIsIdempotent` | apps/api/app/rag/binding_service.py:106-147 | a call that succeeded changes nothing when issued again at any later time, and is answered with the current history; a proposal only while its document is there, unchanged and readable |
| `BindingLifecycle.UsedRequestChangesNothing` | apps/api/migrations/versions/d72e620b7302_m6_binding_lifecycle.py:41 | a request id that any event carries never changes the tables again |
| `BindingLifecycle.OneEventPerChange` | apps/api/app/rag/binding_repository.py:105-163 | a call that changes the tables adds one event with its request id, actor, reason and target |
| `BindingStore.BindingService.AddEvent` | apps/api/migrations/versions/d72e620b7302_m6_binding_lifecycle.py:161-188 | an insert into the event table succeeds iff trigger and constraints admit it, and then appends it |
| `BindingStore.BindingService.AddRevision` | apps/api/migrations/versions/d72e620b7302_m6_binding_lifecycle.py:120-210 | an insert into the revision table adds the revision and its first event, or neither |
| `BindingStore.BindingService.ProposeBinding` | apps/api/app/rag/binding_service.py:98-122 | tables and reply on every branch; nothing is written unless the bytes verify and the document is unchanged; the chains are kept, nothing is lost, and a success is recorded and answered with the current history when asked for again, as long as the source can be read |
| `BindingStore.BindingService.Transition` | apps/api/app/rag/binding_service.py:130-159 | tables and reply on every branch; the chains are kept, nothing is lost, and a success is recorded and answered with the current history when asked for again |
| `BindingStore.BindingService.Approve` | apps/api/app/rag/binding_service.py:124-125 | nothing is written unless the bytes verify and the document is unchanged; after a success an APPROVED event with this request, actor and reason is in the history, the chains are kept, and asking again gives the same answer and changes nothing |
| `BindingStore.BindingService.Revoke` | apps/api/app/rag/binding_service.py:127-128 | the outcome does not depend on whether the source can be read; after a success a REVOKED event is in the history, and asking again changes nothing |
| `Conversation.LogIsGapFree` | apps/api/app/agent/memory.py:60-81 | in every interleaving of writers the numbers of a session are exactly 1 to n, and an insert succeeds iff its texts fit their columns and its number is still the next |
| `Conversation.StaleInsertCollides` | apps/api/app/infrastructure/models/conversation.py:46-48 | a number that is not the next one any more is already taken |
| `Conversation.OneRowPerNumber` | apps/api/app/infrastructure/models/conversation.py:46-48 | a session has one row for each number |
| `Conversation.AppendIsLast` | apps/api/app/agent/memory.py:60-67 | the row numbered after the highest one comes last in the ordered log |
| `Conversation.SessionKeepsItsOwner` | apps/api/app/agent/memory.py:16-46 | a session belongs to the student who opened it first: after any run the same student is let in, everyone else is denied, and nothing is written |
| `MemoryStore.ConversationMemory.GetOrCreateSession` | apps/api/app/agent/memory.py:16-46 | a session is created once, used by the owner its row names and denied to everyone else |
| `MemoryStore.ConversationMemory.AddMessage` | apps/api/app/agent/memory.py:48-81 | a message whose tool name and call id have at most 100 characters and that is stored extends the log of its session by exactly that entry |
| `MemoryStore.ConversationMemory.GetMessages` | apps/api/app/agent/memory.py:103-127 | the loop builds the transcript of the log in order, with the keys that are present |
| `MemoryStore.AloneAddsTheRow` | apps/api/app/agent/memory.py:48-81 | an uninterrupted writer writes the row that AddMessage writes, or none if the entry does not fit |
| `Limits.ExecutionBudget.constructor` | apps/api/app/agent/limits.py:12-25 | limits from the argument, else the environment, a zero argument counting as missing, and never above 10 calls and 20 steps |
| `Limits.ExecutionBudget.IncrementStep` | apps/api/app/agent/limits.py:27-30 | a step is counted, and refused beyond the limit |
| `Limits.ExecutionBudget.RecordToolCall` | apps/api/app/agent/limits.py:32-46 | a call is counted even when refused, and refused beyond the limit or when it repeats the last accepted one |
| `AgentProperties.TranscriptMirrorsTheLog` | apps/api/app/agent/orchestrator.py:59-211 | for every log found, at every question the messages equal the transcript of the durable log |
| `AgentProperties.TranscriptCompleteIff` | apps/api/app/agent/orchestrator.py:119-211 | the log is complete, with every row of calls followed by exactly their answers in order, at a question iff it was when the run began, and at the end iff besides no reply within the step limit, after replies that were stored in full, has its row stored but not the row of each of its calls |
| `AgentProperties.LongNameBreaksForGood` | apps/api/app/infrastructure/models/conversation.py:39-40 | a run whose first reply calls a tool under 101 characters leaves the log incomplete although every row that fits is stored, and every later run asks on an incomplete log |
| `AgentProperties.HandleAllAnswers` | apps/api/app/agent/orchestrator.py:131-211 | on each of the five branches a call adds its one answer to the log and to the messages alike |
| `AgentProperties.LastEvaluationHasAuthority` | apps/api/app/agent/orchestrator.py:89-208 | a run that returns has handled all calls in order, decides as the last evaluation request did if that succeeded and else has no decision |
| `AgentProperties.StudentIsToldTheVerdict` | apps/api/app/agent/m8_authority.py:92-100 | the student is told in these words to be eligible iff the last evaluation request returned ELIGIBLE, not to be iff it returned NOT_ELIGIBLE, that it could not be determined iff UNKNOWN, and that nothing was verified iff none of these; the last row of the log is the same text |
| `AgentProperties.AnswerIsLogged` | apps/api/app/agent/orchestrator.py:137-208 | log and messages get the same answer to a call: the refusal of its case when the handler was not run, else what the handler gave |
| `AgentProperties.BudgetsHold` | apps/api/app/agent/limits.py:12-46 | at most 20 questions and 10 handler runs under every configuration, and no accepted call repeats the one before it |
| `AgentProperties.HandlersRunIff` | apps/api/app/agent/orchestrator.py:137-163 | a handler is run iff its tool is known, its arguments are JSON, fewer such calls than the limit came before, and it does not repeat the call run last |
| `AgentProperties.EveryRunEnds` | apps/api/app/agent/orchestrator.py:77-78 | no run needs more replies than its step limit, and it is cut off iff that many replies all ask for calls |
| `Orchestrator.AgentOrchestrator.Execute` | apps/api/app/agent/orchestrator.py:59-211 | log and outcome of a whole run, for every sequence of replies: refused without permission and then without a trace, opened with prompt and query, and ended with the text that says what was decided |
| `Orchestrator.AgentOrchestrator.Turns` | apps/api/app/agent/orchestrator.py:77-129 | the outer loop, with the messages, the budget and the decision in variables |
| `Orchestrator.AgentOrchestrator.HandleCalls` | apps/api/app/agent/orchestrator.py:131-211 | the inner loop over the calls of one reply |
| `Orchestrator.AgentOrchestrator.CallTool` | apps/api/app/agent/orchestrator.py:131-208 | budget, decision and text after one call, on each of its branches |
| `IngestionLeases.NextKeepsInv` | apps/api/app/rag/ingestion_repository.py:93-159 | every step of every worker keeps attempts, leases and locks consistent |
| `IngestionLeases.LeaseSafety` | apps/api/app/rag/ingestion_repository.py:106-125 | a job has been leased as often as its attempt column says, at most three times, and leases between which every update reports RUNNING do not overlap |
| `IngestionLeases.RequeuedLeasesOverlap` | apps/api/app/rag/ingestion_repository.py:152-159 | a run in which an update back to QUEUED lets two leases of a job overlap |
| `IngestionLeases.HoldersAreExclusive` | apps/api/app/rag/ingestion_repository.py:116 | two open transactions never hold one job, and a held job is not updated |
| `IngestionLeases.AcquisitionsAreBounded` | apps/api/app/rag/ingestion_repository.py:110 | if every acquisition asks for at most n attempts, no job is leased more than n times |
| `IngestionLeases.WorkIsConserved` | apps/api/app/rag/ingestion_repository.py:123-125 | over any run, leases and remaining attempts add up to three for each job |
| `IngestionLeases.MeasureOfStep` | apps/api/app/rag/ingestion_repository.py:93-159 | each lease takes one remaining attempt, each new job brings three, and nothing else counts |
| `IngestionLeases.FinishedStaysFinished` | apps/api/app/rag/ingestion_repository.py:111-112 | a job in a terminal status is never leased again until someone updates it |
| `IngestionLeases.RunFailsWithItsJob` | apps/api/app/rag/ingestion_repository.py:161-170 | FAILED or CANCELLED fails the run at once and for good; no other update changes it |
| `IngestionLeases.RunFailsWithAttemptsLeft` | apps/api/app/rag/ingestion_repository.py:161-170 | a reachable job with two attempts left whose failure fails its run |
| `IngestionLeases.StatusRefusedIff` | apps/api/app/infrastructure/models/rag.py:134 | an update that otherwise fits is refused iff its status is outside the six of the table, as COMPLETED is |
| `IngestionLeases.EnqueueIsIdempotent` | apps/api/app/rag/ingestion_repository.py:33-52 | the same configuration returns the same run at any later time and changes nothing |
| `IngestionLeases.NothingOrSomething` | apps/api/app/rag/ingestion_repository.py:106-121 | the query comes back empty iff each unlocked job with attempts left is neither QUEUED nor RUNNING on a lease that is over |
| `IngestionStore.IngestionRepository.EnqueueRun` | apps/api/app/rag/ingestion_repository.py:20-91 | a new configuration gets a running run with one queued job, and each later request with it the same run without a change; jobs there were are untouched, every run keeps a job, and no job is missing |
| `IngestionStore.IngestionRepository.AcquireJob` | apps/api/app/rag/ingestion_repository.py:93-138 | the earliest unlocked job with attempts left that is QUEUED, or RUNNING on a lease that is over, is leased for the given time with one attempt more; without one the call returns none |
| `IngestionStore.IngestionRepository.PickJob` | apps/api/app/rag/ingestion_repository.py:106-121 | none iff each unlocked job with attempts left is neither QUEUED nor RUNNING on a lease that is over, else the earliest that may be taken |
| `LeaseRecovery.ExpiredLeaseIsTakenUp` | apps/api/app/rag/ingestion_repository.py:110-125 | in any reachable state a RUNNING job with attempts left whose lease is over by the clock, unlocked and recorded before all others that may be taken, is leased by the next worker |
| `LeaseRecovery.LeasedJobIsLeftAlone` | apps/api/app/rag/ingestion_repository.py:112 | while its lease lasts by the clock a RUNNING job is never locked by any worker, whenever that worker began |
| `LeaseRecovery.LocksIff` | apps/api/app/rag/ingestion_repository.py:106-121 | a worker locks a job iff its row may be taken and no such row was recorded earlier |
| `IngestionStore.AloneLeasesTheJob` | apps/api/app/rag/ingestion_repository.py:93-138 | an uninterrupted worker leaves the rows that AcquireJob leaves |
| `IngestionStore.IngestionRepository.UpdateJob` | apps/api/app/rag/ingestion_repository.py:140-172 | only QUEUED and RUNNING keep the lease; after a terminal status no acquisition finds the job eligible; no update changes any attempt count, and every job still meets the checks of its table |

## Left out

- Interleavings inside one policy, requirement or binding command: each is one atomic step. `transition_status` reads and writes without a lock, so nothing is claimed for two of them at once. The chain results of bindings hold for any sequence of guarded inserts.
- The queries of one evaluation for student, facts, rules and criteria are one step, so no command comes between them; and so are the pages of one scroll, between which another caller could upsert.
- Raw updates and deletes of policy and requirement versions, and the triggers that guard these and the set members.
- `Fragility.NotEligibleSurvives`: sufficient, and exact for each rule; no condition short of the verdict itself is given for rules that are mendable one by one.
- Version numbers, definitions, documents and effective dates of policy and requirement versions, and the members of requirement sets.
- `recorded_at`, `source_type`, `source_reference`, `verification` and `correction_reason` columns, except the time that orders jobs.
- Real JSON, float and regular expression values: numbers are reals, a comparison that Python cannot make has an error outcome, and NaN does not occur.
- The text of a grade point average below 0.0001, which Python prints with an exponent.
- `PublicationSafety.CrashConsistentPublication`: at most one caller at a time for a generation row, because the code does not order two retries of one row; what overlapping callers can do is `StaysPublishedIffQuiet`.
- Points of a published generation after another run of the same space was indexed: ids omit the generation, so only the frame of one upsert is stated.
- The branches BINDING_NOT_FOUND and GENERATION_CONFLICT of `generate_index`: a foreign key and the insert that just failed exclude them.
- Embeddings, vectors, collections and HTTP: a provider succeeds, fails, or applies part of an upsert.
- `RetrievalService`, `LocalDocumentStore` and `SourceService`: whether the stored bytes of a source verify is a parameter of propose and approve.
- Lease fencing: `update_job` does not check who holds the lease, so nothing is claimed about who updates.
- Interleavings inside `update_job` and `enqueue_run`, which read before they flush: each is one atomic step.
- The length limit of the codes of rules and criteria, so that a code that is not used yet always exists.
- `save_chunks`, and the choice among eligible jobs recorded at the same time.
- The list of verified evidence in `execute`, which is collected and never used, and the tool schemas.
- Zero characters and lost connections in the conversation: whether the database takes a row that fits is a parameter.
- Exceptions of the JSON parser other than invalid syntax, and a tool handler that never ends.
- `AgentProperties.TranscriptMirrorsTheLog`: one writer for a conversation while it runs; several writers are covered for the numbering alone.
- Routers, authentication, settings, logging, the web interface, and company, opportunity and student records beyond the counted facts.
