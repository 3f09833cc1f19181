# Verified models of the safety platform's decision code

The repository is a construction-safety platform: a FastAPI backend that scores risk, plans and gates agent
actions, rewrites SQL, retrieves knowledge and runs work-order lifecycles, and a Vue client. This project models
the parts of it that decide something, and proves what they promise over all inputs and all runs. Code that
computes values is modelled by functions; code that updates state step by step is modelled by methods and classes,
each proved against a specification function, and the promises are lemmas about that function.

| file | what it models |
|---|---|
| `NetworkStructure.dfy` | the acyclicity check of the Bayesian network (Kahn's worklist) |
| `SqlSyntax.dfy`, `SqlSemantics.dfy`, `SqlAuditor.dfy`, `SqlAcceptance.dfy` | the NL2SQL auditor, with a three-valued semantics of flat inner-join queries, and what it accepts |
| `AgentTools.dfy`, `AgentPlanner.dfy`, `AgentDag.dfy`, `AgentRuns.dfy` | the tool gate, the plan builder, the step executor, and what runs of built plans do |
| `DynamicFactors.dfy`, `RuleEngine.dfy`, `ConditionMeaning.dfy` | dynamic factors and strong rules, and when they hold |
| `RiskProfiles.dfy`, `ProfileMeaning.dfy` | the scoring pipeline from counts to risk level |
| `RagRetrieval.dfy`, `RetrievalMeaning.dfy` | truncated search per collection and the merged top-k |
| `StableRanking.dfy` | stable sorting by score, and what cutting a ranked list loses |
| `BayesTraining.dfy`, `LearnedCounts.dfy` | learning, predicting and calibrating |
| `BayesEvidence.dfy`, `NormalisedShares.dfy`, `EvidenceMeaning.dfy` | evidence merging and factor weights |
| `AccidentProbabilities.dfy`, `AccidentMeaning.dfy` | the published accident probabilities and propagation paths |
| `WorkOrders.dfy` | the work-order status machine and the rule-triggered orders |
| `ApprovalQueue.dfy` | requests, decisions and executions of agent approvals |
| `PromptRegistry.dfy`, `PromptVersions.dfy` | prompt versions: synchronisation and activation |
| `SessionMemory.dfy`, `SessionMeaning.dfy` | sanitised session context and messages |
| `ProfileCache.dfy` | the read-through profile cache with a clock |
| `MarkdownChunking.dfy`, `ChunkMeaning.dfy` | cutting knowledge files into chunks |
| `TokenRefresh.dfy`, `RefreshCauses.dfy` | the client's single-flight token refresh |
| `Common.dfy`, `Arithmetic.dfy` | shared datatypes, half-even rounding, sums |

The files named for a meaning, an acceptance, a cause or a count state the same results once more without the model's
own helper functions: by positions in lists, by the order of numbers and texts, by sets of rows.

Floating-point numbers are exact reals; Python's `round(x, n)` is the explicit half-even function
`Rounding.Round`. One service call is one atomic step. Answers of foreign systems (search engine, work-order
service, HTTP server) are parameters or events, so the results hold for every answer.

## What the models showed about the code

- A project's risk level is monotone in every count, its score is not: the floor to 61 can lift the smaller input
  above the larger one. `RiskProfiles.ProjectScoreMonotoneIff` gives the exact condition, `ScoreDropExample` an input.
- With the auditor's whitelist, where every table carries `company_id`, its own output is always accepted again
  (`SqlAuditor.CompanyTablesReauditAccepted`). For any other whitelist the exact condition is that no table is scoped
  through `tenant_id` or the user's tenant and company ids coincide, and that the scope fields resolve
  (`SqlAuditor.ReauditAcceptance`).
- The `LIKE` scope on `org_path` selects exactly the extensions of the user's path if and only if the path has no
  wildcard or escape character (`SqlSemantics.PrefixScopeIffPlain`).
- Rows added in a recalculation are invisible to its own duplicate query, so a key requested twice is created twice
  (`WorkOrderTriggers.RecalculationKeepsInvariantIff`, `RepeatedRuleIdExample`). With distinct rule ids it cannot happen
  in any run (`WorkOrderTriggers.DistinctRuleIdsKeepOneOpen`).
- An approved `submit_result` transition can never be executed: the payload filter drops the attachments that the
  workflow insists on (`ApprovalQueue.AttemptOutcome`).
- After an expiry the session store forgets a summary that the database row keeps (`SessionMemory.SummariesAgreeIff`).
- Asking the learned model for an accident type raises its share only while its probability lies strictly between 0 and
  0.95 (`AccidentProbabilities.LearnedRequestRaisesIff`). After 998 recorded falls and nothing else, asking for falls
  publishes 0.9938 in place of 0.9940 (`AccidentProbabilities.CapLowersExample`).
- More evidence for a factor does not raise its learned weight once the graph boost has lifted it to the cap
  (`BayesInference.RaisingEvidenceLearned`).
- A profile read between a recalculation's invalidation and its commit leaves a stale entry behind
  (`ProfileCache.InterruptedRecalculationIsStale`).
- `approval_queue.py` names `unknown` as a target of `work_orders.create`, but creation never produces it: without a
  hazard the target is the work order, and the request fails (`ApprovalQueue.AttemptOutcome`).
- The plan builder's last addition, a separate human-review step, never happens: the specialist's last step asks for
  the review whenever one is needed (`AgentPlanner.BuildPlannedSteps`, `AgentRuns.PlanRoles`).

## Model

| member | source | states |
|---|---|---|
| NetworkStructure.DetectCycle | backend/app/domain/bayesian/structure.py:61-81 | for every directed multigraph: rejects with the first edge that names an unknown node, or says "cycle" if and only if there is one, or the pop order is a topological order of all nodes |
| NetworkStructure.BuildGraph | backend/app/domain/bayesian/structure.py:61-69 | in-degrees count parallel edges, adjacency lists equal `ChildrenOf`, and the first unknown endpoint is reported |
| NetworkStructure.Visit | backend/app/domain/bayesian/structure.py:71-78 | a pop keeps the worklist invariant: popped and waiting nodes are pairwise different, waiting ones have no pending parent, the popped ones come parents first |
| NetworkStructure.ReleaseChildren | backend/app/domain/bayesian/structure.py:75-78 | each child loses one in-degree per parallel edge and joins the worklist exactly when its count reaches zero, never twice |
| NetworkStructure.PopAll | backend/app/domain/bayesian/structure.py:70-81 | the count of visited nodes equals the node count only with a topological order, and otherwise there is a cycle |
| NetworkStructure.OrderExcludesCycle | backend/app/domain/bayesian/structure.py:61-81 | a graph with a topological order has no cycle (soundness of acceptance) |
| NetworkStructure.StuckNodesHaveCycle | backend/app/domain/bayesian/structure.py:80-81 | when the worklist runs dry before all nodes were visited, the rest contains a cycle (completeness) |
| SqlAuditor.AuditSql | backend/app/services/nl2sql/auditor.py:236-328 | the step-by-step audit returns the specified verdict: the first failed check as the reason, or the rewritten query |
| SqlAuditor.CheckQuery | backend/app/services/nl2sql/auditor.py:249-284 | the kinds of checks run in the source's order (tables, star, fields, tenant, company, project) and the first problem found is the verdict |
| SqlAuditor.AcceptedIffClean | backend/app/services/nl2sql/auditor.py:255-284 | a query is accepted if and only if all its tables are listed and every node of it is an allowed, non-sensitive, non-overriding one |
| SqlAcceptance.AcceptanceMeaning | backend/app/services/nl2sql/auditor.py:249-284 | in terms of node shapes only: accepted if and only if every table is listed, no star occurs, every column belongs to a table whose list holds it and none is sensitive, every equality on tenant or company carries the user's own id, and a project-scoped user compares projects only with own ones, by equality or in a list |
| SqlAcceptance.AuditAcceptance | backend/app/services/nl2sql/auditor.py:236-328 | the audit accepts if and only if the text parses as exactly one SELECT that meets those conditions |
| SqlAcceptance.RejectionMeaning | backend/app/services/nl2sql/auditor.py:249-284 | the reason of a rejection names a condition that the query really breaks |
| SqlAcceptance.ForeignProjectInListRefused | backend/app/services/nl2sql/auditor.py:183-193 | one foreign project in a list of own ones is enough for a rejection |
| SqlAcceptance.RewriteTouches | backend/app/services/nl2sql/auditor.py:286-328 | the rewrite changes the condition and the limit only |
| SqlAuditor.RewriteRestricts | backend/app/services/nl2sql/auditor.py:286-318 | running the accepted, rewritten query on any database equals running the original on the rows in the user's company, project and organisation scope |
| SqlAuditor.ScopeDeterminesAnswer | backend/app/services/nl2sql/auditor.py:286-318 | databases that agree inside the scope give the same answer, for any grouping, ordering and projection |
| SqlAuditor.AnswerIsBoundedPage | backend/app/services/nl2sql/auditor.py:196-211 | the answer is exactly the records after the offset of the answer over the visible rows: as many as there are, up to the query's limit, 500 at most, 100 without a limit |
| SqlAuditor.JoinedRowsInCompany | backend/app/services/nl2sql/auditor.py:85-103 | every row that takes part in an answer carries the user's company id |
| SqlAuditor.ReauditAcceptance | backend/app/services/nl2sql/auditor.py:141-193 | for any accepted query, repeated qualifiers included, auditing the output again accepts it if and only if the tenant stand-in is harmless and the scope fields resolve |
| SqlAuditor.CompanyTablesReauditAccepted | backend/app/services/nl2sql/auditor.py:85-105 | with `company_id` in every whitelisted table and distinct qualifiers, the output is always accepted again |
| SqlAuditor.ReauditKeepsMeaning | backend/app/services/nl2sql/auditor.py:214-221 | when accepted again, the second rewrite selects the same rows on every database and keeps the limit |
| SqlSemantics.PrefixScopeIffPlain | backend/app/services/nl2sql/auditor.py:286-312 | `LIKE 'path%'` means "extends the path" if and only if the path has no `%`, `_` or backslash |
| SqlSemantics.InMeaning | backend/app/services/nl2sql/auditor.py:183-193 | `IN` is the three-valued disjunction of the equalities with the choices |
| AgentDag.GateOutcome | backend/app/services/agents/tool_registry.py:38-91 | when a tool call executes, is rehearsed, needs approval or is refused: if and only if conditions on its class, the mode and the project scope |
| AgentDag.ToolGateAgreesWithRunCheck | backend/app/services/agents/tool_registry.py:71-102 | once the run as a whole is not blocked, the gate blocks exactly the restricted and unknown tools |
| AgentPlanner.BuildPlannedSteps | backend/app/services/agents/router.py:101-287 | every plan is numbered from `step_1`, each step waits for its predecessor and depends on earlier steps only, a write tool needs review and stands last, and a review is present when needed |
| AgentPlanner.NumberedIdsUnique | backend/app/services/agents/router.py:323-343 | numbered step ids are pairwise different |
| AgentDag.DagExecutor.EvaluateStep | backend/app/services/agents/dag_executor.py:133-230 | one step gets the specified status, and makes exactly the tool call and the approval its status calls for |
| AgentDag.DagExecutor.EvaluateSteps | backend/app/services/agents/dag_executor.py:124-230 | the loop gives every step its specified status; tool calls and approvals correspond one to one to the executed and the approval-required steps |
| AgentDag.DagExecutor.ExecuteAgentDag | backend/app/services/agents/dag_executor.py:32-111 | the run row, the run status (never "failed"), when execution counts as allowed, and that dry runs add nothing |
| AgentDag.SkippedHasCause | backend/app/services/agents/dag_executor.py:140-160 | in any plan, a skipped step comes after a blocked or approval-required one |
| AgentDag.RunStatusMeaning | backend/app/services/agents/dag_executor.py:233-243 | the run status in terms of the step statuses, both directions; "failed" is unreachable |
| AgentDag.SkippedIffWaitsForHalt | backend/app/services/agents/dag_executor.py:246-251 | with unique ids and backward dependencies: skipped if and only if some transitive dependency was blocked or needs approval |
| AgentDag.DryRunExecutesNothing | backend/app/services/agents/dag_executor.py:170-230 | a dry run calls no tool, requests no approval and marks no step as executing |
| AgentDag.BuiltPlanStopsAtFirstHalt | backend/app/services/agents/router.py:101-287 | in a built plan everything after the first halted step is skipped |
| AgentDag.BuiltPlanAsksOnce | backend/app/services/agents/router.py:101-287 | a built plan requests at most one approval, in its last step |
| AgentRuns.BlockedAsWholeIff | backend/app/services/agents/dag_executor.py:114-121 | a run is blocked as a whole if and only if a restricted action was asked for or the project is outside the user's scope |
| AgentRuns.PlannedRunStatuses | backend/app/services/agents/dag_executor.py:124-230 | in a run that is not blocked as a whole, every step of a built plan gets the status written out for its agent: read and draft steps are executed in controlled mode, none is blocked or skipped, only the write step waits for approval |
| AgentRuns.PlannedRun | backend/app/services/agents/dag_executor.py:160-243 | the tools such a run calls, by name and in order, none in a dry run; one approval, of the write tool, exactly for a controlled run of a plan that ends in one; and the status of the run |
| AgentRuns.BlockedRun | backend/app/services/agents/dag_executor.py:140-163 | a run blocked as a whole calls and requests nothing, whatever the plan |
| AgentRuns.PlanRoles | backend/app/services/agents/router.py:101-287 | which agent each step belongs to and which steps ask for a human review |
| DynamicFactors.EvaluateDynamicFactors | backend/app/domain/dynamic_factors.py:101-132 | the loops compute the capped, rounded factor: free deltas add up, an exclusive group contributes its maximum |
| DynamicFactors.FactorMonotone | backend/app/domain/dynamic_factors.py:52-132 | with rising conditions more pressure never lowers the factor, which stays between 0 and the cap |
| ConditionMeaning.EarlierIsTotal | backend/app/domain/dynamic_factors.py:52-67 | the order of texts by their first difference is total |
| ConditionMeaning.LexLessMeaning | backend/app/domain/dynamic_factors.py:52-67 | the text comparison of the model is that order |
| ConditionMeaning.FactorTestMeaning | backend/app/domain/dynamic_factors.py:52-67 | a factor's test holds, and raises, exactly as the order of numbers and texts and equality say; a missing fact satisfies nothing |
| ConditionMeaning.EvaluationMeaning | backend/app/domain/dynamic_factors.py:101-132 | the evaluation raises if and only if a definition raises; otherwise the triggers are those of exactly the definitions that hold, in order, and the factor is base plus free deltas plus each exclusive group's largest, cut and rounded |
| RuleEngine.Engine.Evaluate | backend/app/services/rules/engine.py:80-103 | the loop returns exactly the triggers of the rules of that type that hold, in order, with all their fields and the evidence, or the first error |
| RuleEngine.OtherTypesIgnored | backend/app/services/rules/engine.py:83-84 | rules for other objects in the same engine make no difference, not even by raising |
| ConditionMeaning.RuleTestMeaning | backend/app/services/rules/engine.py:138-153 | a rule's test holds, and raises, exactly as order, equality and membership say; a missing fact is neither above nor below, but can be unequal or listed |
| ConditionMeaning.ConditionMeaningOf | backend/app/services/rules/engine.py:120-124 | a nested condition holds when all its tests hold, and raises at a test behind tests that hold |
| ConditionMeaning.FiredMeaning | backend/app/services/rules/engine.py:80-103 | the engine raises if and only if a rule of the type raises; otherwise it answers with one trigger, field by field, for exactly the rules of the type whose condition holds, in order |
| ConditionMeaning.ThresholdFires | backend/app/services/rules/engine.py:138-153 | a rule with `>=` fires exactly at and above its limit |
| RuleEngine.TriggersAreExplained | backend/app/services/rules/engine.py:127-135 | the evidence stored with a trigger suffices to judge its condition again, and it holds |
| RuleEngine.FiredIdsDistinct | backend/app/services/rules/engine.py:80-103 | with distinct rule ids no id fires twice, and every trigger comes from a rule of the object's type |
| RuleEngine.ConditionGrows | backend/app/services/rules/engine.py:120-153 | a rising condition, nested `all` lists included, that holds keeps holding under more pressure |
| RuleEngine.BonusMonotone | backend/app/services/rules/engine.py:80-124 | when the rules of the object's type are rising, whatever the others, more pressure never lowers the rule bonus |
| Rounding.RoundIff | backend/app/domain/risk.py:11-13 | rounding takes the nearest value with that many decimals, and of two equally near ones the even |
| RiskProfiles.FinalScoreRange | backend/app/domain/risk.py:11-13 | the final score lies between 0 and 100 for all inputs |
| RiskProfiles.BaseScoreMonotone | backend/app/domain/weights.py:70-104 | the weighted base score is monotone in the counts and non-negative |
| RiskProfiles.CalculateProjectProfile | backend/app/services/profiles/calculator.py:26-81 | the project profile is the composition of the stages; level equals the level of the score, score in range |
| RiskProfiles.CalculateWorkerProfile | backend/app/services/profiles/calculator.py:84-144 | the observation week, the lift to high, tags and completeness; level equals the level of the score |
| RiskProfiles.CalculateSubcontractorProfile | backend/app/services/profiles/calculator.py:147-184 | base, bonus, floor and tags; level equals the level of the score |
| RiskProfiles.ProjectLevelMonotone | backend/app/services/profiles/calculator.py:26-81 | raising any count or the schedule pressure never lowers the risk level, through all five stages, in an engine whose project rules are rising |
| RiskProfiles.ProjectScoreMonotoneIff | backend/app/services/profiles/calculator.py:66-71 | the score is monotone except exactly when the smaller input is lifted to 61 and the larger lands between 60 and 61 |
| RiskProfiles.ScoreDropExample | backend/app/services/profiles/calculator.py:66-71 | a concrete pair of inputs whose score drops from 61 to 60.5 |
| ProfileMeaning.ProjectMeaning | backend/app/services/profiles/calculator.py:26-81 | score, level, tags and review of a project from its counts, the coefficients of its type, the triggered factors and the fired rules, written out with all constants |
| ProfileMeaning.WorkerMeaning | backend/app/services/profiles/calculator.py:103-144 | the points of a worker and the lift, written out |
| ProfileMeaning.SubcontractorMeaning | backend/app/services/profiles/calculator.py:155-184 | the points of a subcontractor and the lift, written out |
| ProfileMeaning.LevelOrder | backend/app/domain/risk.py:16-23 | the order of the levels is that of their score bands |
| RagRetrieval.RetrieveRagHits | backend/app/services/rag/retrieve.py:136-191 | searching each collection for k hits, filtering, concatenating, sorting and cutting returns exactly the first k of the stably sorted, filtered union of everything |
| RagRetrieval.VectorSearch | backend/app/services/rag/retrieve.py:75-133 | a search yields the parsed hits, with all their fields, at or above the threshold of its first k raw hits |
| RetrievalMeaning.ParsedMeaning | backend/app/services/rag/retrieve.py:70-101 | the hits of a collection are those of exactly the rows whose score, one minus the distance cut to the unit interval, reaches the threshold, in order, with all their fields |
| RetrievalMeaning.GatheredMeaning | backend/app/services/rag/retrieve.py:136-191 | the union holds one hit for each qualifying row of each named collection, collection by collection |
| RetrievalMeaning.RetrievalMeaningOf | backend/app/services/rag/retrieve.py:136-191 | the whole answer in these terms, with the defaults for limit, threshold and collections |
| RagRetrieval.MergeCuts | backend/app/services/rag/retrieve.py:136-191 | cutting every collection at k does not change the first k of the merged list |
| StableRanking.DropDominated | backend/app/services/rag/retrieve.py:190-191 | entries preceded by k entries of at least their score never reach the first k of a stable sort |
| StableRanking.StableSortCorrect | backend/app/services/rag/retrieve.py:190-190 | the sort orders by score, permutes, and keeps the order of ties |
| RagRetrieval.GlobalTopKIsBest | backend/app/services/rag/retrieve.py:136-191 | nothing left out scores more than anything returned |
| BayesTraining.LearnTable | backend/app/services/bayesian/training.py:44-130 | the learned table holds the estimate of every factor and outcome; an empty training set is refused |
| BayesTraining.LearnOutcome | backend/app/services/bayesian/training.py:79-119 | an outcome's node: marginal, and one conditional estimate for each non-empty bucket |
| LearnedCounts.LearnedTableCounts | backend/app/services/bayesian/training.py:24-119 | every number of a learned table is the smoothed, rounded fraction of a set of training rows: those with the factor labelled 1, with the outcome, or with as many active parents |
| LearnedCounts.PredictionCounts | backend/app/domain/bayesian/outcome_probs.py:11-26 | a prediction is such a fraction among the rows with as many active parents, or among all rows |
| LearnedCounts.ParentsMeaning | backend/app/domain/bayesian/structure.py:42-43 | the parents of a node are the sources of the edges into it, in edge order |
| BayesTraining.EstimateIsDistribution | backend/app/services/bayesian/training.py:24-37 | after rounding to four digits the two state probabilities lie in [0,1] and sum to exactly 1 |
| BayesTraining.BucketsPartitionRows | backend/app/services/bayesian/training.py:89-108 | bucket sizes sum to the number of rows, bucket positives to the outcome's count |
| BayesTraining.PredictTrainingRow | backend/app/domain/bayesian/outcome_probs.py:11-26 | on any training row the learned table answers with the Laplace value of exactly that row's bucket |
| BayesTraining.DroppingInactiveLabels | backend/app/services/bayesian/calibration.py:52-63 | predicting from the active labels only gives the same buckets |
| BayesTraining.SharesSumToOne | backend/app/domain/bayesian/outcome_probs.py:35-45 | shares of scores with a positive total sum to 1 within half a millionth per outcome |
| BayesTraining.SharesInUnit | backend/app/domain/bayesian/outcome_probs.py:35-45 | every share lies in [0,1] |
| BayesTraining.LearnedDistributionSums | backend/app/domain/bayesian/outcome_probs.py:29-45 | a learned table predicts likelihoods in [0,1] and a distribution that sums to 1 within the slack, for any labels |
| BayesTraining.SquaredErrorsBound | backend/app/services/bayesian/calibration.py:121-140 | the squared errors of one case are at most the sum of the probabilities plus 1 for the true outcome |
| BayesTraining.OutcomeBrierScore | backend/app/services/bayesian/calibration.py:121-140 | the loop computes the rounded mean, which lies between 0 and 2 / outcomes plus the rounding slack |
| LearnedCounts.CaseScoresMeaning | backend/app/services/bayesian/calibration.py:121-140 | the averaged scores are those of exactly the cases with an outcome, each the mean squared distance from what happened |
| EvidenceMapping.ExtractSignals | backend/app/domain/bayesian/mapping.py:31-172 | merging a profile's contributions keeps each factor's largest clamped one, strongest first |
| EvidenceMapping.MergeProfileSignals | backend/app/domain/bayesian/mapping.py:175-189 | the evidence map equals the flat maximum over all contributions of all profiles |
| EvidenceMapping.FlatMaxIsPointwiseMaximum | backend/app/domain/bayesian/mapping.py:31-51 | the map has exactly the factors with a positive contribution, each with its largest clamped one |
| EvidenceMapping.FlatMaxOrderFree | backend/app/domain/bayesian/mapping.py:175-189 | neither the order of the mappings nor of the profiles matters |
| EvidenceMeaning.ProjectMeaning | backend/app/domain/bayesian/mapping.py:54-94 | each row of the project's table contributes its score as a share of a hundred plus the supplement of the level, and the total score 0.6 of its share |
| EvidenceMeaning.SubcontractorMeaning | backend/app/domain/bayesian/mapping.py:124-172 | the subcontractor's rows, and its two ratios, at most one each |
| EvidenceMeaning.MergedEvidence | backend/app/domain/bayesian/mapping.py:31-51 | the merged evidence names exactly the factors with a positive contribution and gives each the largest, cut to the unit interval |
| BayesInference.FactorWeights | backend/app/domain/bayesian/inference.py:64-71 | the loop returns the normalised blends of prior and evidence |
| EvidenceMeaning.ExpertWeightMeaning | backend/app/domain/bayesian/inference.py:64-71 | an expert weight is the share of a score between 35 per cent of the prior and the whole prior |
| NormalisedShares.OneEntryMovesShares | backend/app/domain/bayesian/inference.py:64-100 | changing one score moves its share the same way and every other positive share the opposite way, both directions |
| BayesInference.RaisingEvidenceExpert | backend/app/domain/bayesian/inference.py:64-71 | more evidence for one factor raises its weight, lowers all others and keeps their order |
| BayesInference.RaisingEvidenceLearned | backend/app/domain/bayesian/l3_inference.py:74-99 | the same for the learned weights with the graph boosts merged in, if and only if the boost has not lifted the factor to the cap; at the cap nothing changes |
| BayesInference.MergeGraphBoosts | backend/app/domain/bayesian/l3_inference.py:74-83 | a boosted factor gets evidence plus boost, capped at 1; the others keep theirs |
| BayesInference.FactorScores | backend/app/domain/bayesian/l3_inference.py:86-99 | the learned weights are the normalised blends over the boosted evidence |
| EvidenceMeaning.LearnedWeightMeaning | backend/app/domain/bayesian/l3_inference.py:74-99 | a learned weight is the share of 65 per cent evidence, 35 per cent learned rate and a tenth of the prior, over the boosted evidence |
| AccidentProbabilities.ExpertProbabilities | backend/app/domain/bayesian/inference.py:74-100 | the loops publish the outcomes but `other`, ranked by prior plus weighted likelihoods (1.35 times for the one asked for), each over the total and rounded |
| AccidentProbabilities.ExpertTableMeaning | backend/app/domain/bayesian/inference.py:91-100 | the published expert table is descending and holds exactly the rounded shares of the listed outcomes |
| AccidentMeaning.ExpertRawMeaning | backend/app/domain/bayesian/inference.py:79-89 | the ranked scores are those of the outcomes but `other`, in order: prior plus weight times configured likelihood of each factor, 0.05 where none is configured, times 1.35 for the type asked for |
| AccidentMeaning.PublishedMeaning | backend/app/domain/bayesian/inference.py:91-100 | publishing divides by the total and rounds to four places |
| AccidentProbabilities.ExpertRequestRaises | backend/app/domain/bayesian/inference.py:64-100 | from the evidence to the table: asking for a type raises its share, lowers all others and keeps their order; rounded, its probability does not fall and no other rises |
| AccidentProbabilities.ExpertBoostRaises | backend/app/domain/bayesian/inference.py:87-88 | the factor 1.35 on one of several positive scores raises its share and lowers all others, keeping their order |
| AccidentProbabilities.LearnedProbabilities | backend/app/domain/bayesian/l3_inference.py:119-143 | the learned table: the predicted distribution, boosted and normalised again when a type is asked for, ranked, without `other`, rounded |
| AccidentProbabilities.LearnedTableMeaning | backend/app/domain/bayesian/l3_inference.py:134-143 | the published learned table is descending and holds exactly the rounded shares of the outcomes other than `other` |
| AccidentMeaning.LearnedSharesMeaning | backend/app/domain/bayesian/l3_inference.py:128-132 | the type asked for gets 1.35 times its probability, at most 0.95, and all become shares of the new total |
| AccidentProbabilities.LearnedBoostRaisesIff | backend/app/domain/bayesian/l3_inference.py:128-132 | on any list, the capped boost raises the share if and only if the entry is strictly between 0 and 0.95, and lowers it above 0.95 |
| AccidentProbabilities.LearnedRequestRaisesIff | backend/app/domain/bayesian/l3_inference.py:119-132 | on a learned table and any evidence: the request raises the share if and only if the probability is strictly between 0 and 0.95 and another one is positive, lowers it if and only if above 0.95 and another one is positive, and the other positive shares fall exactly when it rises |
| AccidentProbabilities.RequestRaisesPublishedIff | backend/app/domain/bayesian/l3_inference.py:126-132 | against the value published without a request, which is not normalised again: the exact inequality under which asking raises it |
| AccidentProbabilities.CapLowersExample | backend/app/domain/bayesian/l3_inference.py:128-132 | in every network, a table learned from 998 falls publishes 0.9940 for a fall, and 0.9938 when a fall is asked for |
| AccidentProbabilities.PathUsesOutcomeBucket | backend/app/domain/bayesian/l3_inference.py:66-71 | the bucket behind the path weights is the one behind the outcome probability |
| AccidentProbabilities.TopPropagationPaths | backend/app/domain/bayesian/l3_inference.py:146-180 | the first paths, up to the limit, of a stable ranking of the weighted paths, weighted with the outcome's own predicted likelihood |
| AccidentProbabilities.TopPathsAreHeaviest | backend/app/domain/bayesian/l3_inference.py:180-180 | all paths if they fit, otherwise as many as the limit, and none left out outweighs one returned |
| AccidentProbabilities.PathsPerParent | backend/app/domain/bayesian/l3_inference.py:163-179 | each occurrence of a parent with evidence gives one path, a parent without none |
| AccidentProbabilities.PathMeaning | backend/app/domain/bayesian/l3_inference.py:163-179 | every path starts at a parent with evidence, ends at the target and has the stated weight |
| AccidentMeaning.PathsMeaning | backend/app/domain/bayesian/l3_inference.py:163-179 | one path for each parent with positive evidence, in order, weighted with evidence, learned rate and likelihood |
| WorkOrderFlow.MatrixMatchesTransitions | backend/app/domain/hazard_workflow.py:9-37 | the matrix authorises defined transitions only, each through exactly one role |
| WorkOrderFlow.RunInvariant | backend/app/domain/work_orders.py:14-28 | in every authorised run no step is undefined, `rejected` is never reached, closed and escalated runs end, and submissions exceed rejections by one exactly in review or closed |
| WorkOrderFlow.OpenRuns | backend/app/domain/hazard_workflow.py:9-37 | up to review, the authorised runs are exactly the alternating ones |
| WorkOrderFlow.ClosedRuns | backend/app/domain/hazard_workflow.py:9-37 | a run is closed if and only if it is a director's confirm, the subcontractor's accept, submit-reject rounds, a last submit and a general contractor's pass |
| WorkOrderFlow.EscalatedRuns | backend/app/domain/work_orders.py:14-28 | a run is escalated if and only if the system's timeout ends it while the subcontractor is at work |
| WorkOrderTriggers.Session.CreateForTriggers | backend/app/services/rules/work_order_trigger.py:34-69 | adds an order for each auto-create trigger without a visible open duplicate; created plus skipped is the number of auto-create triggers |
| WorkOrderTriggers.Session.Recalculate | backend/app/services/profiles/service.py:253-328 | all objects of a recalculation are checked against the rows committed before it, then committed together |
| WorkOrderTriggers.RecalculationKeepsInvariantIff | backend/app/services/rules/work_order_trigger.py:72-89 | a recalculation keeps "one open automatic order per key" if and only if every key it requests twice was already taken |
| WorkOrderTriggers.RepeatedRuleIdExample | backend/app/services/rules/work_order_trigger.py:72-89 | two triggers of one rule for one object make two open orders |
| WorkOrderTriggers.RunKeepsOneOpenPerKey | backend/app/services/profiles/service.py:253-496 | every run of recalculations with distinct requests, status changes and manual orders keeps at most one open automatic order per rule, source and project |
| WorkOrderTriggers.SecondRecalculationCreatesNothing | backend/app/services/rules/work_order_trigger.py:34-89 | repeating a recalculation at once creates no order |
| WorkOrderTriggers.EngineRequestsDistinct | backend/app/services/profiles/service.py:253-496 | with distinct rule ids, a recalculation of distinct objects through the engine asks for no key twice |
| WorkOrderTriggers.DistinctRuleIdsKeepOneOpen | backend/app/services/profiles/service.py:253-496 | with distinct rule ids, every run of recalculations through the engine, status changes and manual orders keeps at most one open automatic order per rule, source and project |
| WorkOrderTriggers.Session.Act | backend/app/services/work_orders/service.py:146-164 | a status change moves one order along a defined transition and leaves everything else |
| WorkOrderTriggers.AllRequestsMeaning | backend/app/services/rules/work_order_trigger.py:34-69 | a recalculation asks for one order for each trigger that creates automatically, in order, keyed by rule, source and project, and for no other |
| WorkOrderTriggers.OrdersMeaning | backend/app/services/rules/work_order_trigger.py:72-89 | exactly the requests whose key has no order that is still open get a new automatic order waiting for confirmation |
| ApprovalQueue.ApprovalStore.CreateRequest | backend/app/services/agents/approval_queue.py:38-74 | adds one pending row made from the context, or nothing for an id in use |
| ApprovalQueue.ApprovalStore.Decide | backend/app/services/agents/approval_queue.py:104-129 | decides a visible pending row; nothing for an invisible one, an error for any other status |
| ApprovalQueue.ApprovalStore.Execute | backend/app/services/agents/approval_queue.py:132-171 | as one atomic call: one effect and status executed, or no effect and status failed; nothing or an error unless visible and approved |
| ApprovalQueue.ApprovalStore.MarkExecutionFailed | backend/app/services/agents/approval_queue.py:249-263 | records the failure on the visible row and touches nothing else |
| ApprovalQueue.RunInvariant | backend/app/services/agents/approval_queue.py:38-171 | in every run approver, executor, time stamps and error agree with the status, and the effects are exactly one for each executed row |
| ApprovalQueue.SettledRowsAreFinal | backend/app/services/agents/approval_queue.py:104-171 | a rejected, executed or failed row never changes again |
| ApprovalQueue.EffectHasHistory | backend/app/services/agents/approval_queue.py:38-171 | an effect was preceded by a creation, an approval by somebody who sees the row, and an execution, in that order |
| ApprovalQueue.AttemptOutcome | backend/app/services/agents/approval_queue.py:178-246 | an approved request goes through if and only if the service accepts it and a condition known at creation holds; other tools are never permitted |
| ApprovalQueue.ExecutionOutcome | backend/app/services/agents/approval_queue.py:132-171 | which of executed or failed an execution ends in, from the creating call alone, and how many effects it adds |
| ApprovalQueue.TargetMeaning | backend/app/services/agents/approval_queue.py:266-277 | what a request is about, from the tool's name and the hazard or order the context names |
| ApprovalQueue.AttemptMeaning | backend/app/services/agents/approval_queue.py:178-246 | when an execution is refused, when its payload is incomplete, and which hazard or order it acts on |
| ApprovalQueue.DecisionMeaning | backend/app/services/agents/approval_queue.py:91-129 | a decision takes effect exactly on a pending row of the caller's company and projects, and changes status, approver and time only |
| ApprovalQueue.ExecutionMeaning | backend/app/services/agents/approval_queue.py:132-171 | an execution takes effect exactly on an approved row of the caller's company and projects, and what it leaves unchanged |
| PromptRegistry.MinorOfVersion | backend/app/services/agents/prompt_registry.py:43-52 | the version pattern reads back the number a version string was made from |
| PromptRegistry.NextVersionFresh | backend/app/services/agents/prompt_registry.py:43-52 | the next version string differs from every version of the agent |
| PromptRegistry.Registry.Sync | backend/app/services/agents/prompt_registry.py:63-97 | the loop treats every agent against the committed rows, then commits; an unreadable file changes nothing |
| PromptRegistry.Registry.Activate | backend/app/services/agents/prompt_registry.py:146-155 | activates the found version, an error if there is none |
| PromptRegistry.Registry.DeactivateAll | backend/app/services/agents/prompt_registry.py:55-60 | every row of the agent loses its flag and, if active, its status; all other rows stay |
| PromptRegistry.RunInvariant | backend/app/services/agents/prompt_registry.py:63-155 | in every run: status active exactly with the flag, version strings of an agent distinct, one active row for an agent with rows |
| PromptRegistry.VersionsNeverReused | backend/app/services/agents/prompt_registry.py:43-97 | a version keeps naming the same row and hash for ever |
| PromptRegistry.SyncActivatesFiles | backend/app/services/agents/prompt_registry.py:63-97 | after a sync every known agent has one active version with the file's hash, and has one for ever after |
| PromptRegistry.SyncIsIdempotent | backend/app/services/agents/prompt_registry.py:81-84 | a sync with unchanged files changes nothing |
| PromptRegistry.FirstVersionOnlyOnce | backend/app/services/agents/prompt_registry.py:68-80 | the branch without an active row runs exactly when the agent has no rows |
| PromptRegistry.ActivationIsExclusive | backend/app/services/agents/prompt_registry.py:146-155 | the activated version is the agent's only active one and other agents' rows stay |
| PromptVersions.RunCountsVersions | backend/app/services/agents/prompt_registry.py:43-97 | in every run the versions of an agent are `v1.0`, `v1.1`, ... without a gap, in the order of its rows |
| PromptVersions.PatternMeaning | backend/app/services/agents/prompt_registry.py:16-16 | the version pattern is `v1.` with at least one digit |
| PromptVersions.LaterTurn | backend/app/services/agents/prompt_registry.py:81-96 | an agent's turn in a sync: nothing for an unchanged file, otherwise the row in use is archived and one with the file's hash added |
| PromptVersions.ActivationMeaning | backend/app/services/agents/prompt_registry.py:55-60 | activation puts the version in use, takes the agent's other rows out of use and touches no other row |
| SessionMemory.SanitizeAtPath | backend/app/services/memory/service.py:33-43 | sanitising removes what lies under a blocked key, at any depth, and nothing else |
| SessionMeaning.BlockedMeaning | backend/app/services/memory/service.py:16-40 | a key is dropped if and only if it is a blocked name in any case |
| SessionMemory.SanitizeFixesExactlyClean | backend/app/services/memory/service.py:33-43 | it leaves a value alone if and only if the value is clean, so it is idempotent |
| SessionMemory.SanitizeCommutesWithMerge | backend/app/services/memory/context_resolver.py:17-22 | sanitising commutes with merging, also when the older context was sanitised before |
| SessionMemory.MergeSessionContext | backend/app/services/memory/context_resolver.py:17-22 | the loop lets every non-null incoming value win and keeps the rest |
| SessionMemory.Session.AppendMemory | backend/app/services/memory/service.py:83-132 | the new store entry and the new summary row |
| SessionMemory.Session.GetMemory | backend/app/services/memory/service.py:135-160 | the store's entry, or the row's summary with empty messages and context, or nothing |
| SessionMemory.StoredSessionIsSanitisedLog | backend/app/services/memory/service.py:83-113 | since the last expiry: context is the sanitised merge of all raw contexts, messages the last 20 of the sanitised log, the count saturates at 21 |
| SessionMeaning.ContextMeaning | backend/app/services/memory/context_resolver.py:17-22 | a context key has the value of the last append that gave it one; a null gives none |
| SessionMeaning.StoredEntryMeaning | backend/app/services/memory/service.py:83-113 | the stored entry by positions in the log since the last expiry: last twenty messages, count, last summary, merged context |
| SessionMemory.RowRemembersSummary | backend/app/services/memory/service.py:115-131 | the row keeps the latest summary ever given and the store's count |
| SessionMemory.SummariesAgreeIff | backend/app/services/memory/service.py:97-97 | store and row agree on the summary if and only if one was given since the last expiry or none ever |
| SessionMemory.SummaryLostExample | backend/app/services/memory/service.py:97-97 | a summary, an expiry and a silent append make them differ |
| ProfileCache.ProfileService.ReadProfile | backend/app/infrastructure/cache.py:43-64 | marker, stored profile or load; a load fills the store with the right time-to-live |
| ProfileCache.ProfileService.Recalculate | backend/app/services/profiles/service.py:268-328 | every key is invalidated in turn, then all profiles are committed |
| ProfileCache.ReadIsRecent | backend/app/infrastructure/cache.py:43-74 | whatever the interleaving, a read returns what the loader returned at some moment less than that value's time-to-live ago |
| ProfileCache.ReadMeaning | backend/app/infrastructure/cache.py:43-64 | when a read answers from the store, when it loads, and what it writes back: a profile for 600 seconds, a missing one for 60 |
| ProfileCache.AnswerAge | backend/app/infrastructure/cache.py:43-74 | no answer is ten minutes old, and no missing profile is reported a minute late |
| ProfileCache.CoherenceKeptIff | backend/app/infrastructure/cache.py:67-74 | only a commit can make reads stale, and it does not if and only if no live entry of a written key answers anything else |
| ProfileCache.AtomicRecalculationsKeepReadsFresh | backend/app/services/profiles/service.py:303-327 | with uninterrupted recalculations that reach the store as the only writers, every read equals a fresh load |
| ProfileCache.InterruptedRecalculationIsStale | backend/app/services/profiles/service.py:325-327 | a read between invalidation and commit makes later reads stale until the entry expires |
| Text.StripMeaning | backend/app/services/rag/chunking.py:49-49 | stripping cuts exactly the white space off both ends |
| Text.SplitUndoesJoin | backend/app/services/rag/chunking.py:49-49 | the lines of a chunk can be read back from its content |
| Text.Pad3Injective | backend/app/services/rag/chunking.py:52-52 | different section numbers give different three-digit fields, beyond 999 as well |
| Text.Pad3Meaning | backend/app/services/rag/chunking.py:52-52 | three digits with zeros in front, more without a zero in front from 1000 on |
| MarkdownChunking.Flush | backend/app/services/rag/chunking.py:48-62 | adds one chunk with the stripped non-blank lines, or none if there are none |
| MarkdownChunking.ChunkMarkdown | backend/app/services/rag/chunking.py:34-82 | the chunks are exactly the sections that have body lines, with number, title and lines, and their ids are pairwise different |
| MarkdownChunking.SectionsConserveBody | backend/app/services/rag/chunking.py:64-80 | read back in order, the sections give every stripped body line once, under its nearest heading or the document's stem |
| ChunkMeaning.BodyMeaning | backend/app/services/rag/chunking.py:64-80 | the body holds exactly the lines that are no heading, title, tag line or blank, stripped, under the nearest heading above, numbered by the sections closed before |
| ChunkMeaning.SpaceMeaning | backend/app/services/rag/chunking.py:49-49 | white space is a list of 29 characters |
| TokenRefresh.HttpClient.SendRequest | frontend/src/api/client.ts:92-98 | a new request goes out once, unretried |
| TokenRefresh.HttpClient.OnResponse | frontend/src/api/client.ts:100-119 | what the interceptor does up to its `await`: settle, reject, or wait for the one shared refresh |
| TokenRefresh.HttpClient.OnRefreshSettled | frontend/src/api/client.ts:72-90 | the shared refresh settles: tokens stored or cleared, the promise released |
| TokenRefresh.HttpClient.OnResume | frontend/src/api/client.ts:119-135 | a waiter sends its request again after a token, and is rejected without one |
| TokenRefresh.RunKeepsInvariant | frontend/src/api/client.ts:100-136 | every possible event order keeps: the unsettled refresh is the one the promise names, and each request's flags agree with what it saw |
| TokenRefresh.SingleFlight | frontend/src/api/client.ts:44-136 | in every run at most one shared refresh is in flight, a request is sent at most twice, twice only after its refresh brought a token, and all waiters on one refresh see the same outcome |
| TokenRefresh.QuietMeansSettled | frontend/src/api/client.ts:100-136 | nothing more can happen if and only if every request is settled and no refresh is in flight |
| TokenRefresh.ProgressIsBounded | frontend/src/api/client.ts:100-136 | the outstanding events are bounded by a measure every one of them lowers |
| TokenRefresh.EveryRequestSettles | frontend/src/api/client.ts:100-136 | from any reachable state, every maximal sequence of outstanding events settles every request |
| TokenRefresh.CanSettle | frontend/src/api/client.ts:100-136 | and there is one |
| RefreshCauses.UnauthorizedWaits | frontend/src/api/client.ts:106-119 | a 401 on an ordinary request that was not sent again, with a refresh token stored, makes it wait for the refresh in flight, or for a new one if there is none |
| RefreshCauses.OnlyUnauthorizedRefreshes | frontend/src/api/client.ts:106-119 | no other event starts a refresh or makes a request wait |
| RefreshCauses.EndsAsAnswered | frontend/src/api/client.ts:100-136 | a request is fulfilled exactly by a success, given up exactly for one of the listed causes, sent again exactly after its refresh brought a token, and then never changes |
| RefreshCauses.StoredToken | frontend/src/api/client.ts:72-132 | when a refresh token is stored, in terms of what the page and the refreshes set and the 401 answers that end the session |
| RefreshCauses.RefreshesAreOutcomes | frontend/src/api/client.ts:44-119 | refreshes settle in the order they were started, each with the outcome it brought |
| RefreshCauses.FulfilledIffSuccess | frontend/src/api/client.ts:100-136 | in every run the fulfilled requests are exactly those answered with success |
| RefreshCauses.GivenUpHasCause | frontend/src/api/client.ts:106-135 | in every run a request that was given up met another failure, a 401 as login or refresh call, one without a refresh token, a second one, or a refresh that brought no token |
| RefreshCauses.MarkedHasCause | frontend/src/api/client.ts:106-115 | in every run a marked request met a 401 as an ordinary request with a refresh token stored |

## Left out

- SqlAuditor.AuditSql: starts from a parsed statement; parsing, printing and quoting, subqueries, common table expressions, outer joins, collations and the lists of used tables and fields are not modelled, and identifiers arrive in lower case.
- SqlAuditor.CheckQuery: of several forbidden columns the first in preorder is named, while the source walks breadth-first and may name another; the verdict does not depend on the order (`AcceptedIffClean`).
- SqlAuditor.RewriteRestricts: grouping, ordering and projection are one arbitrary function of the joined rows.
- AgentDag.DagExecutor.EvaluateSteps: tool outputs, tool exceptions, `input_refs` and evidence lists are not modelled; a called tool answers.
- AgentPlanner.BuildPlannedSteps: the keyword tests on the message are the two flags; message classification is not modelled.
- RiskProfiles.CalculateProjectProfile: the evidence strings of a profile are not modelled.
- DynamicFactors.EvaluateDynamicFactors: facts are numbers, texts or absent; booleans and lists as facts are not modelled, and evidence lists of triggers are reduced to their source.
- RagRetrieval.RetrieveRagHits: the search engine is an arbitrary ranked list per collection; embedding, tenant filter text and the keyword fallback are not modelled.
- BayesInference.FactorWeights: the ranked factor table with percentages, the control priorities and the free texts of the two inference results are not modelled.
- AccidentProbabilities.ExpertRequestRaises: accident types arrive as outcome ids; the alias table of free-text names is not modelled.
- BayesTraining.OutcomeBrierScore: `factor_hit_rate`, `split_training_rows` and the affinity scores are not modelled.
- BayesTraining.LearnTable: the file format, versions and time stamps of a learned table are not modelled.
- EvidenceMapping.ExtractSignals: the evidence texts of signals are not modelled.
- WorkOrderTriggers.Session.Recalculate: titles, descriptions, priorities and trigger logs are not modelled; two concurrent recalculations are not either, since the code holds no lock.
- ApprovalQueue.ApprovalStore.Execute: the work-order service answers yes or no to a well-formed request; its own state is not modelled. The source commits the effect first and the approval's status after it; a crash between the two commits is not modelled. Summaries, risk levels, comments and evidence references of a row are not either.
- PromptRegistry.Registry.Sync: with several active rows the newest would be used; the model takes the first, and no run reaches such a state. Paths and time stamps are not modelled, nor are non-ASCII digits in version strings.
- SessionMemory.Session.AppendMemory: one session; JSON encoding of dates, tenants that share a user id, and task checkpoints are not modelled. Lower-casing covers ASCII letters; no other letter turns into one that a blocked key contains.
- ProfileCache.ProfileService.ReadProfile: one loader scope per key; JSON encoding of profiles and the NL2SQL cache are not modelled.
- MarkdownChunking.ChunkMarkdown: starts from the lines of the file; the slug in the id prefix and the parsed tags, which are the same for every chunk of a file, are not modelled.
- TokenRefresh.SingleFlight: speaks of refreshes the interceptor starts; the direct refresh in `refreshSessionIfNeeded` enters only as a change of the stored tokens. Headers, redirects and the tokens' values are not modelled.
- HTTP endpoints, permissions and RBAC seeding, migrations, scripts, reports, dashboards, uploads and the Vue pages are plumbing or constants.
- Configuration files are arbitrary inputs: rules, factors, coefficients, networks and prompt files.
