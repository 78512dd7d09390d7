# RootSeeker: a verified model of its hard core

RootSeeker investigates production incidents: a planner proposes tool calls, a
runner executes them, an index cuts source files into chunks, an analysis turns
evidence into a conclusion, and an admin application keeps scheduled jobs, users
and sessions.  This project models the parts of it with the most state and
branching and proves what they promise.  `dafny verify dfyconfig.toml` checks
all of it.

- **The tool-plan scheduler** (`ToolPlan`, `WaveRun`, `WaveTheorems`,
  `PlanTheorems`, `OrderTheorems`, `RunnerState`, `AttemptRunner`,
  `CaseContracts`, `ToolCallLoop`).  Plans are dependency graphs; the runner
  executes them in waves with a skip pass, a ready set and a deadlock branch.
  The gateway is an arbitrary oracle `ok(step_id)`.  `AttemptRunner` holds the
  loop as it is written, for every plan; `WaveRun` is its specification for plans with distinct
  step ids (`ParserTheorems.DistinctIdsExactly` says which answers have them), and
  the theorems compare the waves with a one-pass evaluation and with the graph.
- **The plan parser** (`ToolPlanParser`, `ParserTheorems`, `ParserRange`,
  `PlanExamples`): reading an answer, the two repair passes, generated ids, what
  the passes establish for the scheduler, which plans come out at all, and small
  plans on which the runner surprises.
- **The template renderer** (`TemplateTokens`, `TemplateRender`,
  `TemplateValues`, `TemplateTheorems`, `TemplateContexts`): a renderer on
  characters, a renderer on tokens, the meaning of a block tree, and which values
  the double substitution leaves alone.
- **Chunker and slicer** (`Windows`, `PythonSpans`, `BraceSpans`, `Chunker`,
  `CodeSlice`): windows, indent and brace spans, gaps, merging, clamping.
- **Root-cause analysis** (`Evidence`, `HypothesisGenerator`,
  `HypothesisTheorems`, `EvidenceWeighting`, `HypothesisValidator`,
  `ConvergenceChecker`, `RootCauseEngine`, `RootCauseTheorems`).
- **Admin** (`CronJobs`, `CronBuiltins`, `CronStore`, `CronTheorems` for the job
  store; `UserStore`, `SessionStore`, `AuthProtocol`, `AuthTheorems`,
  `PurgeTheorems`, `AuthMiddleware` for users, sessions and request checks).
- `Common`, `Text` and `Sorting` hold what the others share.

Where the code changes things in place the model does too: the runner, the case
record, the chunker's line array, the stores and the middleware are methods and
classes, each proved against a specification function; the theorems are about
those functions.

Places where the code does something else than its texts say or suggest; the
model follows the code and proves when the promise holds:

- The planner's prompt (rootseeker/agent_runtime/llm_tool_planner.py:160) asks for
  dependencies on earlier steps, but nothing enforces it.  Out of order, a step
  can run although its required dependency was skipped in the same wave.  A safe
  order is enough for every plan; it is also needed for the class of plans named
  in `OrderTheorems.SafeOrderExactly`.
- A step id of spaces only is stored blank, and the case record refuses it: the
  run raises while the case is built, before anything is executed.
- Nothing stops an answer from giving two calls one step id; the run of such a
  plan always raises in the loop, on a second move of the same step.
- A plan in which every call is optional and waits for another, such as two
  optional calls that wait for each other, ends in an illegal case transition,
  from planned to completed.
- Dropping a post-report call that another call waits for makes the runner
  report a dependency cycle although there is none.  A planner injected in place
  of the shipped one can return such a plan; the shipped parser cannot.
- The renderer substitutes variables inside a block twice, which changes a value
  that holds a tag or ends in part of one; and a block that contains a block of
  its own name leaves a closing tag in the output.  Both conditions are exact:
  the one over contexts, the other over templates.
- Deleting a user is to clear all of that user's sessions
  (docs/superpowers/specs/2026-09-15-admin-login-user-management-design.md:99).
  It does so for good exactly when no login of that user is in flight at the
  purge.  Such a login creates a session afterwards; it admits nobody, and the
  check that meets it removes it.

## Model

| member | source | states |
|---|---|---|
| `AttemptRunner.RunToolPlan` | rootseeker/agent_runtime/attempt_runner.py:198-345 | the whole run, for every plan: one with a blank step id or tool name raises before anything runs; one with a repeated step id raises in the loop; for every other plan the traces are those of the wave specification, every step ends with the status of its one trace, the run is failed exactly when the blocking set ends non-empty, and it raises on the last case transition exactly when every call is optional and has dependencies |
| `AttemptRunner.RunCase` | rootseeker/agent_runtime/attempt_runner.py:199-345 | the same for a case that was built: it raises on a step transition exactly for a repeated step id; otherwise traces, step statuses, verdict and case status |
| `AttemptRunner.RunWaves` | rootseeker/agent_runtime/attempt_runner.py:199-314 | the wave loop, with its pending list, finished set, blocking set and result table, terminates for every plan; it is stopped by an illegal step transition exactly when a step id is repeated, and otherwise ends with exactly the specified traces, a trace for every step, and one result per executed step |
| `AttemptRunner.RunWave` | rootseeker/agent_runtime/attempt_runner.py:217-314 | one iteration keeps the three sets, the results and the step statuses in agreement with the traces or, with a repeated id, keeps a pending step that is listed twice or has already moved; either way something leaves the pending list |
| `AttemptRunner.SkipBlocked` | rootseeker/agent_runtime/attempt_runner.py:218-247 | the skip pass goes over the pending list in plan order and sees the blocking steps it adds itself |
| `AttemptRunner.SkipUnresolved` | rootseeker/agent_runtime/attempt_runner.py:260-278 | the deadlock branch marks every pending step |
| `AttemptRunner.SelectReady` | rootseeker/agent_runtime/attempt_runner.py:249-256 | the ready list is the pending steps all of whose dependencies are finished, in order, each as often as it is pending |
| `AttemptRunner.StartAll` | rootseeker/agent_runtime/attempt_runner.py:280-281 | the ready steps go to running if and only if they differ and none has moved before |
| `AttemptRunner.RunReady` | rootseeker/agent_runtime/attempt_runner.py:280-314 | a ready set runs from pending to running, the case is running, and its records finish it in order |
| `AttemptRunner.FinishSteps` | rootseeker/agent_runtime/attempt_runner.py:316-335 | after the loop each executed step completes or fails by its result; the others keep their status |
| `AttemptRunner.Verdict` | rootseeker/agent_runtime/attempt_runner.py:337-341 | a required step failed or was skipped exactly when the blocking set is not empty |
| `AttemptRunner.Conclude` | rootseeker/agent_runtime/attempt_runner.py:342-345 | the last case transition, legal from running and, to failed only, from planned |
| `AttemptRunner.RaiseCondition` | rootseeker/agent_runtime/attempt_runner.py:282-283 | nothing runs and nothing blocks exactly when every call is optional and has dependencies |
| `AttemptRunner.VerdictIsBlocking` | rootseeker/agent_runtime/attempt_runner.py:337-341 | the verdict read from final statuses is the verdict read from the blocking set |
| `CaseContracts.CaseRecord.FromPlan` | rootseeker/agent_runtime/attempt_runner.py:634-671 | a case is refused exactly when some call has a blank step id or tool name (rootseeker/contracts/case.py:36-39); otherwise it is planned and all its steps are pending |
| `CaseContracts.CaseRecord.TransitionStep` | rootseeker/contracts/state_machine.py:33-57 | a step moves only along the allowed transitions, otherwise nothing changes |
| `CaseContracts.CaseRecord.TransitionCase` | rootseeker/contracts/state_machine.py:19-48 | a case moves only along the allowed transitions, otherwise nothing changes |
| `ToolCallLoop.ExecuteSequentially` | rootseeker/agent_runtime/tool_call_loop.py:66-75 | one record per request, in request order |
| `ToolCallLoop.ExecuteConcurrently` | rootseeker/agent_runtime/tool_call_loop.py:77-104 | one record per request, in request order, whatever order the workers finish in |
| `ToolCallLoop.ExecuteRecords` | rootseeker/agent_runtime/tool_call_loop.py:49-75 | the records do not depend on the concurrency limit |
| `WaveRun.WaveProgress` | rootseeker/agent_runtime/attempt_runner.py:217-278 | every iteration finishes at least one pending step, so the loop terminates |
| `WaveTheorems.RunFaithful` | rootseeker/agent_runtime/attempt_runner.py:217-314 | in a plan of any order every trace is justified: no step is traced twice; an executed step had its dependencies traced before; a skipped step has a blocking dependency before it; a cycle mark has an unresolved dependency |
| `PlanTheorems.EachStepTracedOnce` | rootseeker/agent_runtime/attempt_runner.py:216-314 | each planned step gets exactly one trace |
| `PlanTheorems.ExecutedDespite` | rootseeker/agent_runtime/attempt_runner.py:217-256 | any order: the dependencies of an executed step are traced strictly before it, and one of them is required and unsuccessful exactly when it stands later in the plan and was skipped in the same wave |
| `PlanTheorems.SkippedForAReason` | rootseeker/agent_runtime/attempt_runner.py:219-247 | any order: a step is skipped only after a required dependency that failed or was skipped |
| `OrderTheorems.SafeOrderIsSufficient` | rootseeker/agent_runtime/attempt_runner.py:217-256 | for every plan: when each required dependency that waits for a required step stands before its dependent, or the dependent waits for that step too, no gateway makes a step run on an unmet required dependency |
| `OrderTheorems.UnsafeOrderRunsBlocked` | rootseeker/agent_runtime/attempt_runner.py:219-256 | in any acyclic plan, a call that stands before such a dependency, its other dependencies waiting along no longer chains than the step behind that dependency, does run in the wave in which the dependency is skipped, when exactly that step fails |
| `OrderTheorems.SafeOrderExactly` | rootseeker/agent_runtime/attempt_runner.py:217-256 | for acyclic plans in which what breaks the order, if anything does, breaks it in time (the other dependencies of the early call wait no longer than the step behind the late one), the order is safe if and only if no gateway makes a step run on an unmet required dependency |
| `OrderTheorems.WaveKeepsDepths` | rootseeker/agent_runtime/attempt_runner.py:249-314 | a wave that executes what is ready keeps this: what has no trace before wave w waits along a chain of more than w steps, what has one along chains of at most w |
| `PlanExamples.OutOfOrderExample` | rootseeker/agent_runtime/attempt_runner.py:219-256 | the smallest plan of that kind, in the order a, c, b: the parser yields it, and when a fails, b is skipped and c runs in the same wave |
| `PlanExamples.OptionalCycleExample` | rootseeker/agent_runtime/attempt_runner.py:341-345 | two optional calls that wait for each other: the parser yields the plan, and it meets the condition under which the last case transition raises |
| `PlanExamples.RepeatedIdExample` | rootseeker/agent_runtime/attempt_runner.py:199-208 | two calls with one step id: the parser yields the plan, the case is built, and the plan meets the condition under which the loop raises |
| `PlanTheorems.AllWaitingIsCyclic` | rootseeker/agent_runtime/attempt_runner.py:249-278 | a plan of which every call waits for a call of the plan has a cycle, so among parsed plans only cyclic ones end that way |
| `PlanTheorems.WavesRefineInOrder` | rootseeker/agent_runtime/attempt_runner.py:209-314 | with dependencies that name earlier steps, the waves end with the outcome map and blocking set of a one-pass in-order evaluation, for every gateway |
| `PlanTheorems.CycleMarkHasReason` | rootseeker/agent_runtime/attempt_runner.py:257-278 | a step marked as part of a cycle reaches, through marked steps, a repeated step or a dependency the plan does not have |
| `PlanTheorems.NeverMarkedIffAcyclic` | rootseeker/agent_runtime/attempt_runner.py:249-278 | no gateway ever makes the loop report a dependency cycle if and only if the plan is acyclic and every dependency is a step of the plan |
| `PlanTheorems.EarlierOnlyNeverCycles` | rootseeker/agent_runtime/attempt_runner.py:249-278 | dependencies on earlier steps never lead to a cycle mark |
| `PlanTheorems.FirstWave` | rootseeker/agent_runtime/attempt_runner.py:249-278 | the first wave runs exactly the calls without dependencies, and marks everything when there are none |
| `ToolPlan.EarlierOnlyIsAcyclic` | rootseeker/agent_runtime/attempt_runner.py:249-256 | a plan whose dependencies name earlier steps has no cycle |
| `ToolPlanParser.ParseToolPlan` | rootseeker/agent_runtime/tool_plan.py:90-140 | a plan comes out exactly when the answer lists at least one allowed call among those considered, and it is the repaired list of those calls |
| `ToolPlanParser.ParseStringList` | rootseeker/agent_runtime/tool_plan.py:264-275 | the loop over the names, with its set of names seen |
| `ToolPlanParser.FirstOccurrencesAt` | rootseeker/agent_runtime/tool_plan.py:264-275 | a parsed name list has no blank and no repeated name and exactly the names given |
| `ToolPlanParser.FilterDependenciesLoop` | rootseeker/agent_runtime/tool_plan.py:298-318 | the first repair pass |
| `ToolPlanParser.RequireNormalizeLoop` | rootseeker/agent_runtime/tool_plan.py:321-349 | the second repair pass |
| `ToolPlanParser.GeneratedIdsDiffer` | rootseeker/agent_runtime/tool_plan.py:259-261 | generated step ids of different positions differ, whatever the tool names are |
| `ParserTheorems.DistinctIdsExactly` | rootseeker/agent_runtime/tool_plan.py:105-128 | the calls read have distinct step ids if and only if the ids the items give differ once stripped and none equals the one generated for another item |
| `ParserTheorems.BlankIdExactly` | rootseeker/agent_runtime/tool_plan.py:114-133 | a parsed plan has a blank step id if and only if some allowed item among those considered gives one that is not empty but blank |
| `PlanExamples.BlankIdExample` | rootseeker/contracts/case.py:35-36 | one call whose step id is a space: the parser yields the plan, and no case can be built from it |
| `ParserRange.ReadableExactly` | rootseeker/agent_runtime/tool_plan.py:105-128 | the lists of calls some answer reads as are exactly those with allowed tools, stripped texts and dependency lists without blanks or repetitions |
| `ParserRange.ReceivableExactly` | rootseeker/agent_runtime/tool_plan.py:90-140 | a plan without blank step ids is the parse of some answer if and only if it is not empty, within the limit, readable call by call, and unchanged by another repair |
| `ParserTheorems.RepairedDependencies` | rootseeker/agent_runtime/tool_plan.py:132-133 | after both passes a call depends on exactly its known other steps and, if it reads code along the call chain, on the first normalize step; everything else is untouched |
| `ParserTheorems.RepairEstablishesKnownDeps` | rootseeker/agent_runtime/tool_plan.py:298-349 | every dependency of a repaired plan is another step of the plan |
| `ParserTheorems.RepairIsIdempotent` | rootseeker/agent_runtime/tool_plan.py:298-349 | repairing twice is repairing once |
| `ParserTheorems.RequireKeepsAcyclicExactly` | rootseeker/agent_runtime/tool_plan.py:324-349 | the second pass keeps the plan acyclic if and only if it was acyclic and the normalize step reaches none of the chain steps |
| `ParserTheorems.RootNormalizeKeepsAcyclic` | rootseeker/agent_runtime/tool_plan.py:324-349 | a normalize step without dependencies is enough for that |
| `ParserTheorems.RequireKeepsOrderExactly` | rootseeker/agent_runtime/tool_plan.py:324-349 | dependencies still name earlier steps if and only if they did and every chain step stands after the normalize step |
| `ParserTheorems.DistinctIdsSurviveRepair` | rootseeker/agent_runtime/tool_plan.py:132-133 | the passes keep step ids distinct |
| `ParserTheorems.RepairedNeverMarkedExactly` | rootseeker/agent_runtime/tool_plan.py:132-133 | from the calls as read to the runner: no gateway makes it report a cycle if and only if the known dependencies have none and the first normalize step waits for no step that reads code along the call chain |
| `ParserRange.DropIsIdentity` | rootseeker/agent_runtime/attempt_runner.py:151-152 | parsed for the tools the runner lets its planner use, a plan holds no post-report call, so dropping those changes nothing |
| `ParserTheorems.DropNeverMarkedExactly` | rootseeker/agent_runtime/attempt_runner.py:582-592 | a sound plan of an injected planner, after dropping its post-report calls, is still never reported as cyclic if and only if no kept call waited for a dropped one |
| `PlanExamples.DroppedDependencyExample` | rootseeker/agent_runtime/attempt_runner.py:582-592 | an acyclic two-call plan of an injected planner whose second call every gateway sees reported as part of a cycle |
| `TemplateTheorems.RenderFlat` | rootseeker/channel_routing/message_template_render.py:18-36 | the renderer on characters (leftmost, non-greedy, twice substituting) and the renderer on tokens agree on every sequence of tags and of texts in which no tag begins, for every context of stable values |
| `TemplateTheorems.RenderIsEvalExactly` | rootseeker/channel_routing/message_template_render.py:22-36 | with values in which no tag begins, rendering a printed template gives its meaning if and only if no block outside a switched-off block contains a block of its own name |
| `TemplateContexts.RendersRight` | rootseeker/channel_routing/message_template_render.py:22-36 | a template renders right when that holds and the values shown inside live blocks are stable; values shown outside blocks may be any text |
| `TemplateContexts.BlockFreeRendersRight` | rootseeker/channel_routing/message_template_render.py:29-36 | a template without blocks renders right under every context |
| `TemplateContexts.SafeContextExactly` | rootseeker/channel_routing/message_template_render.py:22-36 | a context renders right every template without self-nesting if and only if each of its values is kept by the substitution and ends in no unfinished tag that some text completes to a changing one |
| `TemplateContexts.SafeTemplateExactly` | rootseeker/channel_routing/message_template_render.py:22-36 | the templates that every such context renders right are exactly those in which no block contains a block of its own name |
| `TemplateValues.SubstitutionSplits` | rootseeker/channel_routing/message_template_render.py:33-36 | the substitution of a value followed by any text is that of the two apart, when the value has no open tail |
| `TemplateTheorems.ValueInBlockIsSubstitutedTwice` | rootseeker/channel_routing/message_template_render.py:29-36 | a value that reads as a variable is substituted again inside a block, and not outside |
| `TemplateTokens.RenderedBlockIsStable` | rootseeker/channel_routing/message_template_render.py:31-36 | the second substitution changes nothing in rendered text without tags |
| `TemplateTokens.RenderPrintIsEval` | rootseeker/channel_routing/message_template_render.py:22-36 | on tokens, rendering what was printed is evaluating |
| `TemplateTokens.SelfNestingLeavesTag` | rootseeker/channel_routing/message_template_render.py:18-31 | a live block around a same-named block leaves a closing tag in the output |
| `Windows.WindowRange` | rootseeker/code_index/chunker.py:194-227 | the windowing loop, for every configuration, emits exactly the specified chunks |
| `Windows.WindowCount` | rootseeker/code_index/chunker.py:200-227 | the number of windows is one plus the excess over the step, rounded up; the step is the clamped size less the clamped overlap |
| `Windows.WindowShape` | rootseeker/code_index/chunker.py:200-226 | each window but the last is full and shares exactly the overlap with the next; the last ends the segment |
| `Windows.WindowsCover` | rootseeker/code_index/chunker.py:205-226 | the windows cover the segment |
| `Chunker.ExtractSymbolSpans` | rootseeker/code_index/chunker.py:170-180 | the dispatch by language, and that every span lies in the file |
| `Chunker.ChunkCodeFile` | rootseeker/code_index/chunker.py:80-158 | the chunking loops over spans and gaps, with the boolean line array, give the specified chunks |
| `Chunker.GapsStart` | rootseeker/code_index/chunker.py:122-155 | the gaps are maximal runs of uncovered lines |
| `Chunker.RangeChunkFits` | rootseeker/code_index/chunker.py:204-223 | a chunk lies in its range, is at most the clamped size, and has at least the minimum text |
| `Chunker.ChunkOrigin` | rootseeker/code_index/chunker.py:103-155 | a named chunk lies in its span; an anonymous chunk lies in a maximal uncovered run and shares no line with any span |
| `Chunker.EveryLineIsChunked` | rootseeker/code_index/chunker.py:88-155 | with a minimum of at most one character every non-blank line is inside some chunk, anonymous exactly when no span covers the line |
| `Chunker.ChunksAreOrdered` | rootseeker/code_index/chunker.py:157 | the chunks are in the order of start, end and symbol |
| `PythonSpans.ExtractPythonSpans` | rootseeker/code_index/chunker.py:230-256 | the two loops give the specified spans |
| `PythonSpans.TrimLoop` | rootseeker/code_index/chunker.py:406-410 | the trimming loop |
| `PythonSpans.SpanEndsInText` | rootseeker/code_index/chunker.py:406-410 | a span ends on a line with text |
| `PythonSpans.SpanBounds` | rootseeker/code_index/chunker.py:230-256 | a span starts at a header line, lies in the file and bears the header's name and kind |
| `PythonSpans.EveryHeaderHasItsBlock` | rootseeker/code_index/chunker.py:231-255 | every header line starts a span, and that span is the longest block under it: no header inside is as shallow, and only blank lines follow up to the next that is |
| `PythonSpans.PythonSpansAreLaminar` | rootseeker/code_index/chunker.py:247-256 | two spans are nested or disjoint; the later is nested if and only if every header after the earlier one up to it has a greater indent |
| `BraceSpans.MatchBraceBlock` | rootseeker/code_index/chunker.py:391-403 | the character loop computes the specified match |
| `BraceSpans.MatchBlockIsFirstClose` | rootseeker/code_index/chunker.py:391-403 | the match is the first line on which a closing brace returns the running balance to zero, and there is none exactly when no line does |
| `BraceSpans.JavaMethodEnd` | rootseeker/analysis/code_slice.py:241-253 | the slicer finds the same line, or falls back to the last |
| `BraceSpans.ExtractBraceSpans` | rootseeker/code_index/chunker.py:299-344 | the scan with its jumps gives the specified spans, and removing duplicates does not change them |
| `BraceSpans.ExtractedInOrder` | rootseeker/code_index/chunker.py:281-295 | every span is its header's block, starts increase, and after a method or function every later span starts beyond its end |
| `BraceSpans.EveryHeaderIsSpanned` | rootseeker/code_index/chunker.py:261-295 | every header with a block gives its span, unless it stands inside the block of a method or function that does |
| `BraceSpans.DedupeSpans` | rootseeker/code_index/chunker.py:413-431 | the loop that removes duplicates, between its two sorts |
| `BraceSpans.DedupeKeepsIncreasing` | rootseeker/code_index/chunker.py:413-431 | on spans with increasing starts it is the identity |
| `CodeSlice.MergeSpans` | rootseeker/analysis/code_slice.py:164-173 | the loop that rewrites the last range |
| `CodeSlice.MergedIsCanonical` | rootseeker/analysis/code_slice.py:164-173 | merging covers exactly the same lines with sorted ranges, each two separated by an uncovered line |
| `CodeSlice.CanonicalIsUnique` | rootseeker/analysis/code_slice.py:164-173 | there is only one such list for a set of lines |
| `CodeSlice.MergeIgnoresOrder` | rootseeker/analysis/code_slice.py:164-173 | so the result depends on the covered lines alone |
| `CodeSlice.ExtractionEmitsOnce` | rootseeker/analysis/code_slice.py:159-161 | named-method extraction emits each line of the wanted methods once, in file order |
| `CodeSlice.ClampWindow` | rootseeker/analysis/code_slice.py:180-197 | the clamped window for every limit: the range itself when it fits, otherwise a part of it of exactly the limit, empty for a limit below one; and exactly when the focus line stays inside it |
| `HypothesisGenerator.Generate` | rootseeker/analysis/hypothesis_generator.py:97-134 | the generation loops with their set of used items compute the specified list |
| `HypothesisGenerator.FindMatchingItems` | rootseeker/analysis/hypothesis_generator.py:136-148 | the configured items that match a template, in order |
| `HypothesisGenerator.GroupByType` | rootseeker/analysis/hypothesis_generator.py:198-203 | the groups, in order of first occurrence |
| `HypothesisGenerator.GenerateTypeHypotheses` | rootseeker/analysis/hypothesis_generator.py:195-216 | one hypothesis per group of two or more |
| `HypothesisTheorems.EvidenceIsDivided` | rootseeker/analysis/hypothesis_generator.py:97-134 | one to five hypotheses, most cited first, each citing at most five items of the pack and none twice, no item cited by two |
| `HypothesisTheorems.OnlyCatchAllCitesUnconfigured` | rootseeker/analysis/hypothesis_generator.py:142-143 | for a non-empty pack every hypothesis but the catch-all cites one to five configured items |
| `HypothesisTheorems.CitationsAreExplained` | rootseeker/analysis/hypothesis_generator.py:136-226 | every citation is one its rule looks for: an item matching the template, one of at least two configured items of the type, or, for the catch-all, one of the first three |
| `HypothesisTheorems.CatchAllExactly` | rootseeker/analysis/hypothesis_generator.py:127-129 | the catch-all appears, alone, if and only if no configured item matches a template and no type has two configured items |
| `EvidenceWeighting.Weigh` | rootseeker/analysis/evidence_weighting.py:61-100 | the two loops, the second rewriting weights in place |
| `EvidenceWeighting.RecencyBounds` | rootseeker/analysis/evidence_weighting.py:112-125 | freshness is between one half and one; one exactly for the newest items, one half exactly for the oldest when the dates differ |
| `EvidenceWeighting.RecencyIsMonotone` | rootseeker/analysis/evidence_weighting.py:112-125 | a fresher item never weighs less by freshness |
| `EvidenceWeighting.WeightsSumToOne` | rootseeker/analysis/evidence_weighting.py:94-98 | under every strategy and positive type table the weights of a non-empty pack are positive and sum to one |
| `EvidenceWeighting.WeightsFollowFactors` | rootseeker/analysis/evidence_weighting.py:64-98 | an item that is neither of a lighter type nor older never weighs less |
| `EvidenceWeighting.DefaultSpread` | rootseeker/analysis/evidence_weighting.py:43-98 | with the strategy and table an analysis uses no item weighs more than seven quarters of another, and exactly a newest trace against an oldest item of an unlisted type reaches that |
| `EvidenceWeighting.DefaultShare` | rootseeker/analysis/evidence_weighting.py:43-98 | so in a pack of n items every weight is between four sevenths and seven quarters of 1/n |
| `EvidenceWeighting.AggregateAtMostTotal` | rootseeker/analysis/evidence_weighting.py:151-154 | distinct ids together weigh between nothing and everything |
| `HypothesisValidator.CountSupporting` | rootseeker/analysis/hypothesis_validator.py:91-105 | the supporting ids: the cited ones and those that share a keyword |
| `HypothesisValidator.CountContradicting` | rootseeker/analysis/hypothesis_validator.py:107-123 | how many uncited items contradict |
| `HypothesisValidator.ValidateAll` | rootseeker/analysis/hypothesis_validator.py:67-75 | one validation per hypothesis, sorted by confidence |
| `HypothesisValidator.ConfidenceBounds` | rootseeker/analysis/hypothesis_validator.py:125-132 | confidence is between 0 and 0.9, and 0.9 exactly with four supporters and no contradiction |
| `HypothesisValidator.ThresholdMeansThreeSupporters` | rootseeker/analysis/hypothesis_validator.py:125-132 | confidence reaches 0.7 if and only if there are three supporters and no contradiction |
| `HypothesisValidator.ConfidenceIsMonotone` | rootseeker/analysis/hypothesis_validator.py:125-132 | more support never lowers it, more contradiction never raises it |
| `HypothesisValidator.TopValidation` | rootseeker/analysis/hypothesis_validator.py:67-75 | the first validation belongs to a hypothesis and is between 0 and 0.9 |
| `ConvergenceChecker.GapOfRanked` | rootseeker/analysis/convergence_checker.py:93-99 | on a ranked list the gap is that of its first two entries |
| `RootCauseEngine.Analyze` | rootseeker/analysis/root_cause_engine.py:63-143 | the analysis loop without an expander computes the specified result |
| `RootCauseTheorems.AnalysisConverges` | rootseeker/analysis/root_cause_engine.py:84-121 | for a non-empty pack it ends converged within the limit; the original items stay in front, followed by exactly one derived item per earlier iteration |
| `RootCauseTheorems.ConfidenceIsBounded` | rootseeker/analysis/root_cause_engine.py:239-260 | the conclusion is about the hypothesis whose validation leads the ranking, found by its rule, and no other: its confidence is that validation's, between 0 and 0.9, times 0.75 plus a quarter of the positive weight of what it cites |
| `RootCauseTheorems.EarlyConvergenceExactly` | rootseeker/analysis/convergence_checker.py:57-64 | before the limit a round converges if and only if the pack has three items, the leader has three supporters and no contradiction, and every other is 0.2 behind |
| `RootCauseTheorems.FocusWidens` | rootseeker/analysis/root_cause_engine.py:171-173 | a later iteration keeps at least the items an earlier one would |
| `RootCauseTheorems.FocusKeepsHeaviest` | rootseeker/analysis/root_cause_engine.py:164-181 | narrowing the pack leaves out no item that weighs more than one it keeps |
| `CronJobs.NormalizedIsComplete` | apps/admin/config_store.py:68-99 | a normalised job is complete: stripped id, allowed handler, non-blank schedule, name and time zone, all other fields set |
| `CronJobs.NormalizeKeepsComplete` | apps/admin/config_store.py:68-99 | a complete record is its own normal form, field by field |
| `CronJobs.SeedShapes` | apps/admin/config_store.py:102-146 | seeding any list gives distinct ids, the built-in jobs first in their order with identity fields locked, and only custom jobs after |
| `CronJobs.SeedKeepsSeeded` | apps/admin/config_store.py:102-146 | seeding a list of that shape changes nothing and reports no change |
| `CronJobs.SeedIsIdempotent` | apps/admin/config_store.py:102-146 | for any list a second seeding changes nothing and reports no change |
| `CronBuiltins.ShippedTableIsGood` | apps/admin/config_store.py:31-65 | the shipped built-in table satisfies what the theorems ask of one |
| `CronStore.AdminConfigStore.SeedBuiltinCronJobs` | apps/admin/config_store.py:102-146 | the seeding loops over the id table, the flag and the final order compute the specified list and flag |
| `CronStore.AdminConfigStore.LockLoop` | apps/admin/config_store.py:113-136 | the field by field merge of a built-in job, and when it reports a change |
| `CronStore.AdminConfigStore.Load` | apps/admin/config_store.py:240-256 | the list returned is the seeded one, and it is stored when it was missing or changed |
| `CronStore.AdminConfigStore.GetCronJob` | apps/admin/config_store.py:473-477 | the first job of the loaded list with the id |
| `CronStore.AdminConfigStore.UpsertCronJob` | apps/admin/config_store.py:479-533 | the record returned or the error raised, and the stored document after it |
| `CronStore.AdminConfigStore.DeleteCronJob` | apps/admin/config_store.py:535-547 | the error raised, if any, and the stored document after it |
| `CronTheorems.UpsertReadsBack` | apps/admin/config_store.py:479-533 | whatever was stored, after a successful upsert the id reads as exactly the returned record and every other id as before |
| `CronTheorems.UpsertEditsGivenFields` | apps/admin/config_store.py:486-525 | an upsert of a stored job fails exactly on a blank schedule and, for a custom job, a blank or unknown handler, metadata that is no object or the built-in flag; otherwise it changes exactly the fields the caller gives, with what a blank or null one turns into, and a built-in job keeps handler, flag and deletable=false |
| `CronTheorems.NewJobDefaults` | apps/admin/config_store.py:506-513 | what a new job gets for the fields the caller leaves out |
| `CronTheorems.DeleteReadsNothing` | apps/admin/config_store.py:535-547 | after a successful delete the id reads as missing and every other id as before |
| `CronTheorems.OnlyCustomIsDeletable` | apps/admin/config_store.py:540-541 | no stored document makes a built-in job deletable |
| `CronTheorems.FailuresChangeNothing` | apps/admin/config_store.py:240-256 | loads and failed operations change nothing a read can see |
| `CronTheorems.RunsStayHealthy` | apps/admin/config_store.py:240-547 | over every run from an empty store the list keeps its shape and every record is complete |
| `CronTheorems.EveryRun` | apps/admin/config_store.py:240-547 | the same job by job: its id is its own, it is flagged built-in exactly among the first, those keep id, handler and deletable=false, every handler is allowed and every schedule non-blank |
| `UserStore.MemoryUserStore.GetById` | apps/admin/user_store.py:97-100 | the user with the id, if any |
| `UserStore.MemoryUserStore.GetByUsername` | apps/admin/user_store.py:102-107 | the user with the name, if any; names are unique |
| `UserStore.MemoryUserStore.Create` | apps/admin/user_store.py:109-115 | refused exactly when the name is taken, otherwise the user is added and names stay unique |
| `UserStore.MemoryUserStore.CreateFirst` | apps/admin/user_store.py:117-123 | refused exactly when there is a user |
| `UserStore.MemoryUserStore.UpdatePasswordHash` | apps/admin/user_store.py:125-132 | only that user's hash changes |
| `UserStore.MemoryUserStore.Delete` | apps/admin/user_store.py:134-136 | the user goes, and the answer says whether there was one |
| `UserStore.WithoutUserIs` | apps/admin/user_store.py:134-136 | deleting removes exactly that user |
| `SessionStore.SessionStore.Create` | apps/admin/session_store.py:26-35 | the session is stored under the token with its expiry |
| `SessionStore.SessionStore.Get` | apps/admin/session_store.py:37-45 | an unexpired record, or none; an expired one is removed |
| `SessionStore.SessionStore.Delete` | apps/admin/session_store.py:47-49 | that session and no other goes |
| `SessionStore.SessionStore.DeleteByUserId` | apps/admin/session_store.py:51-55 | exactly the sessions of that user go |
| `AuthProtocol.RunsAreConsistent` | apps/admin/main.py:1987-2034 | over every interleaving: ids and names distinct, sessions and threads refer to issued ids and tokens, no token is bound twice, a purge or a drop is pending only for a user who is gone |
| `AuthTheorems.DeletedIsNeverAdmitted` | apps/admin/auth_middleware.py:28-41 | once a user is deleted no later check admits anybody as that user, over every interleaving |
| `AuthTheorems.AdmissionComesFromLogin` | apps/admin/auth_middleware.py:28-41 | whoever is admitted presented a token made by an earlier verified login or bootstrap of that user, read within its lifetime, and the user exists at the check |
| `AuthTheorems.LetInExactlyWhile` | apps/admin/session_store.py:26-55 | whatever happens short of its own logout, a token lets its holder in if and only if it has not expired and the user exists |
| `AuthTheorems.LoggedOutIsOut` | apps/admin/main.py:1996-2001 | a check that presents the token after its logout lets nobody in |
| `AuthTheorems.AdmittedAfterLogout` | apps/admin/auth_middleware.py:32-35 | whoever is admitted with the token after its logout is admitted by a check that had read the session before it |
| `AuthTheorems.LogoutBetweenReads` | apps/admin/auth_middleware.py:32-35 | and such a check still admits: a logout between its two reads comes too late for it |
| `PurgeTheorems.PurgeIsCompleteExactly` | apps/admin/main.py:2026-2034 | the purge of a deletion rids the user of sessions for good, over every interleaving, if and only if no login of that user is in flight when it runs |
| `PurgeTheorems.ClearForeverExactly` | apps/admin/session_store.py:51-55 | once a user is gone and no session of that user is left, none ever exists again if and only if no login of that user is in flight |
| `PurgeTheorems.QuietDeletionIsComplete` | apps/admin/main.py:2026-2034 | if no login of the user is in flight when the user is deleted, the purge that follows, however late, is complete |
| `PurgeTheorems.PurgeCanMissASession` | apps/admin/main.py:1987-2034 | a run in which the purge of a deletion misses the session of a login in flight and no thread is left to remove it |
| `PurgeTheorems.CheckRemovesOrphan` | apps/admin/auth_middleware.py:33-35 | the check that meets such a session admits nobody and removes exactly it |
| `AuthMiddleware.AdminAuthMiddleware.Middleware` | apps/admin/auth_middleware.py:28-41 | a request goes through if its path is public or its token lets somebody in, and then as that session's user; otherwise it is refused by kind of path; only a dead session of its own token is removed |
| `AuthMiddleware.OpenApiCalls` | apps/admin/auth_middleware.py:11-24 | under /api/ only the four authentication calls are public |

## Left out

- OrderTheorems.SafeOrderExactly: only for acyclic plans in which what breaks the order breaks it in time. In other plans a bad gateway exists or not by the waves in which the other dependencies finish, and skips can make those earlier; the order stays sufficient (`SafeOrderIsSufficient`), and the exact statement is given for each run (`PlanTheorems.ExecutedDespite`).
- ToolPlanParser.ParseToolPlan: starts from the parsed JSON node. Finding the JSON object in the answer, arguments, timeouts, rationale and final answer are not modelled; `str()` of nested values is a parameter of the node.
- AttemptRunner.RunToolPlan: argument enrichment, persistence, evidence collection, the report and the notification around the loop are not modelled; the gateway's answers come from an oracle that does not depend on them.
- CaseContracts.CaseRecord.FromPlan: the case is modelled from the moment it is planned, and steps are a table from id to status instead of a list of objects; the texts of the case itself come from the request and are taken as non-empty.
- TemplateTheorems.RenderIsEvalExactly: literal texts are those in which no tag begins, complete or unfinished at the end; with a tag in it a text is another template. Other values than such texts are treated by `TemplateContexts.RendersRight` and `TemplateContexts.SafeContextExactly`. Names are ASCII word characters.
- ParserRange.ReceivableExactly: plans with a blank step id are not characterised as a whole; `ParserTheorems.BlankIdExactly` says when one comes out. What a plan is written out as in the case metadata is not modelled, nothing reads it back.
- Chunker.ExtractSymbolSpans: the header patterns are recognizer functions of a line and languages are an enumeration; the regular expressions themselves are not modelled. Whitespace is ASCII whitespace.
- Chunker.ChunkCodeFile: takes the spans found by `ExtractSymbolSpans`; repository, path, language and hash of a chunk are copied through and not modelled.
- BraceSpans.ExtractBraceSpans: no nesting claim for class spans; a header without a body can pick up the next block's brace.
- CodeSlice.ExtractionEmitsOnce: finding a method by name is not modelled, nor is a size bound for a whole slice, which the code does not keep.
- HypothesisGenerator.Generate: statements and their summaries are not modelled; the keyword tests on text are arbitrary predicates, and a hypothesis is identified by the rule that made it instead of a fresh id.
- EvidenceWeighting.Weigh: floats are reals, times are whole seconds; the relevance score, which nothing in the engine reads, is not modelled.
- HypothesisValidator.ValidateAll: the reasons given for a result are not modelled; the thresholds are the default ones.
- RootCauseEngine.Analyze: no evidence expander; title, narrative, contributing factors and recommendation texts are not modelled.
- CronStore.AdminConfigStore.Load: only the cron jobs of the stored document, in one process; non-string ids and unknown extra keys of a stored job are not modelled, and numbers in metadata are texts.
- CronStore.AdminConfigStore.UpsertCronJob: the generated id is a parameter; `CronTheorems.UpsertReadsBack` asks that it is not a built-in one.
- UserStore.MemoryUserStore.Create: creation and update times are not modelled; ids are parameters that must be new. The MySQL and SQLite user stores are foreign code.
- AuthProtocol.RunsAreConsistent: handlers may start at any time, without passing the middleware first, which only adds runs; hashing passwords is the flag `passwordOk`.
- HTTP, subprocess, SQL and file access, language-model calls, the cron tick, channel adapters, search ranking and the user interface: foreign code or easy members.
