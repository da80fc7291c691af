# agent-runner IDE core, modelled in Dafny

The agent-runner IDE has two halves: a Svelte front end and a Go orchestrator. This project
models the deterministic, sequential rules of both and proves properties about them.

Front-end view-model builders:

- The WBS tree: tasks grouped by milestone and then by one of five phases, with completion
  counts and rounded percentages. It also covers the flattened view against the set of
  expanded ids, the expanded-set operations and the view-mode toggle.
- The resource hierarchy. Its root is the orchestrator, with meta, worker and container nodes
  below it. Status events update these nodes through lookup-or-create.
- The graph data handed to the layout engine, and the grid snapping of its result.
- The progress-colour bands.
- The layout-direction store, the toast list and the level-filtering console logger.

Go orchestrator:

- Extracting JSON and YAML from LLM replies, and the two prompt builders.
- The OpenAI client's retry and backoff policy and its error classification.
- The queue scheduler and the dependency-aware scheduler.
- The file-based job queue, with its queue and processing directories.
- The status transitions of both task executors.
- The container-id lifecycle of the worker executor.
- The argument vectors built for the Claude and Cursor command-line tools.

Code that changes state is modelled imperatively. Most stores, the logger, the queue, the
queue scheduler and the executors are `class`es with `modifies` clauses. Each of their methods
is proved against a specification function, and the lemmas are stated about that function.
There are two exceptions:
- The process store has no class. Each of its handlers deep-copies the forest before changing
  it, so each handler is a function from the old forest to the new one.
- The dependency-aware scheduler has no class of its own. Its pass, `CheckAndSchedule`, is a
  method that modifies the shared `Workspace` and is proved against `DispatchAll`.

Pure code is modelled as datatypes and functions. External effects are parameters:

- the clock, generated ids and random toast ids;
- subprocess results, sandbox replies and HTTP replies;
- the layout engine's node centres;
- whether each task save succeeds (`Tasks.TaskStore`, and the workspace's task list in
  `ExecutorV2.Execute`).

Module by module:

- `Text`: shared string helpers (Go's `strings.TrimSpace`, `Join`, `Split`, decimal rendering).
- `AgentTools`, `Claude`, `Cursor`: the CLI wrappers.
- `DagreLayout`, `LayoutStore`, `ToastStore`, `WbsUtils`, `FrontLogger`: front-end helpers.
- `WbsStore`, `WbsProperties`, `WbsView`: the WBS tree, its properties, and the flattened
  view and its stores.
- `ProcessStore`: the resource hierarchy.
- `MetaUtils`, `MetaPrompts`, `OpenAIProvider`: the meta-agent client.
- `Tasks`, `FsQueue`, `Scheduler`, `Executor`: the file-based orchestrator.
- `Persistence`, `SchedulerV2`, `ExecutorV2`: the repository-backed orchestrator.
- `Worker`: the worker executor.

## Model

| member | source | states |
|---|---|---|
| AgentTools.NonEmpty | internal/agenttools/claude.go:24 | a non-empty value is kept, an empty one is replaced by the fallback |
| AgentTools.EffectiveMode | internal/agenttools/claude.go:50-53 | the mode is exec exactly when the request mode is empty or "exec" |
| Claude.NewClaudeProvider | internal/agenttools/claude.go:22-28 | the CLI path defaults to "claude" and is never empty; model and flags are copied; the environment is the merge of the extra variables |
| Claude.Capabilities | internal/agenttools/claude.go:31-42 | kind "claude-code", stdin supported, default model is the configured one or DefaultClaudeModel |
| Claude.ModelArgs | internal/agenttools/claude.go:67-70 | `--model m` appears iff the provider or the request names a model, the request's model preferred |
| Claude.Build | internal/agenttools/claude.go:45-99 | a prompt-check error comes first; success iff the prompt passes and the mode is empty or exec; on success, the argument order is model pair, provider flags, request flags, then the prompt unless it goes to stdin |
| Claude.PromptPlacement | internal/agenttools/claude.go:88-96 | with UseStdin the prompt is the plan's stdin and not among the arguments; without it the prompt is the last argument and stdin is empty |
| Cursor.NewCursorProvider | internal/agenttools/cursor.go:20-27 | the CLI path defaults to "cursor"; model and flags are copied |
| Cursor.Capabilities | internal/agenttools/cursor.go:29-40 | kind "cursor-cli", stdin supported, default model is the configured one or DefaultCursorModel |
| Cursor.Build | internal/agenttools/cursor.go:43-93 | prompt-check error first; success iff the mode is empty or exec; the arguments are provider flags, then request flags, then "-" (stdin) or the prompt |
| Cursor.NoModelFlag | internal/agenttools/cursor.go:65-75 | the model settings never produce a `--model` argument: when none of the supplied flags is `--model`, no argument before the prompt is `--model` (caller-supplied flags pass through unchanged) |
| DagreLayout.NodeDimensions | frontend/ide/src/lib/flow/dagreLayout.ts:10-24 | height 100; width 180/240/320 by title length (at most 15, at most 30, longer); 240 without task data |
| DagreLayout.ConvertTasksToFlowData | frontend/ide/src/lib/flow/dagreLayout.ts:96-122 | one node per task in order, and the edges are exactly AllEdges of the tasks |
| DagreLayout.TaskEdgesExact | frontend/ide/src/lib/flow/dagreLayout.ts:109-118 | a task's edges are one `e<dep>-<id>` edge per dependency entry, in order |
| DagreLayout.EdgesExact | frontend/ide/src/lib/flow/dagreLayout.ts:109-118 | the edge count is the sum of the dependency-list lengths (duplicates kept); every edge joins a listed dependency to its task, and every dependency has its edge |
| DagreLayout.Round | frontend/ide/src/lib/flow/dagreLayout.ts:75-79 | `Math.round` is the integer within one half of its argument, halves rounding up |
| DagreLayout.Snap | frontend/ide/src/lib/flow/dagreLayout.ts:75-79 | a snapped value lies within half a grid step of the input |
| DagreLayout.SnapOfMultiple | frontend/ide/src/lib/flow/dagreLayout.ts:75-79 | a multiple of the step is its own snap |
| DagreLayout.SnapIdempotent | frontend/ide/src/lib/flow/dagreLayout.ts:75-79 | snapping twice equals snapping once |
| DagreLayout.SnappedCentre | frontend/ide/src/lib/flow/dagreLayout.ts:71-79 | the snapped centre is on the 100 × 70 grid (x snapped once more to 100 is unchanged, y likewise with 70) and within 50/35 of the engine's centre |
| DagreLayout.LayoutNode | frontend/ide/src/lib/flow/dagreLayout.ts:62-91 | id, type and data are kept; handles are Left/Right for "LR" and Top/Bottom otherwise; position plus half the size is the snapped centre |
| DagreLayout.LayoutedElements | frontend/ide/src/lib/flow/dagreLayout.ts:29-94 | same nodes in the same order, each laid out at its centre; edges returned unchanged |
| LayoutStore.Flipped | frontend/ide/src/lib/flow/layout/layoutStore.ts:11 | the toggled direction differs from the current one |
| LayoutStore.FlipInvolution | frontend/ide/src/lib/flow/layout/layoutStore.ts:11 | toggling twice is the identity, and flipping is a bijection |
| LayoutStore.DirectionStore.constructor | frontend/ide/src/lib/flow/layout/layoutStore.ts:6 | the initial direction is LR |
| LayoutStore.DirectionStore.SetDirection | frontend/ide/src/lib/flow/layout/layoutStore.ts:10 | stores exactly the given direction |
| LayoutStore.DirectionStore.Toggle | frontend/ide/src/lib/flow/layout/layoutStore.ts:11 | the new direction is the old one flipped |
| ToastStore.Without | frontend/ide/src/stores/toastStore.ts:35-37 | the filtered list is no longer than the input and holds only input toasts with another id |
| ToastStore.WithoutAppend | frontend/ide/src/stores/toastStore.ts:35-37 | filtering distributes over concatenation, so order is preserved |
| ToastStore.WithoutExact | frontend/ide/src/stores/toastStore.ts:35-37 | a toast survives iff it was there and has another id |
| ToastStore.WithoutUnknown | frontend/ide/src/stores/toastStore.ts:35-37 | removing an unknown id leaves the list unchanged |
| ToastStore.WithoutIdempotent | frontend/ide/src/stores/toastStore.ts:35-37 | removing twice equals removing once |
| ToastStore.AddThenRemove | frontend/ide/src/stores/toastStore.ts:21-37 | adding a fresh id and removing it restores the list |
| ToastStore.ToastList.constructor | frontend/ide/src/stores/toastStore.ts:17 | no toasts and no pending expiries |
| ToastStore.ToastList.Add | frontend/ide/src/stores/toastStore.ts:21-34 | appends exactly one toast (type defaults to info, duration to 3000); an expiry is scheduled iff the duration is positive |
| ToastStore.ToastList.Remove | frontend/ide/src/stores/toastStore.ts:35-37 | the list becomes the old list without that id; pending expiries untouched |
| ToastStore.ToastList.Expire | frontend/ide/src/stores/toastStore.ts:29-33 | a firing timer removes its toast's id and is itself consumed |
| WbsUtils.GetProgressColor | frontend/ide/src/lib/wbs/utils.ts:22-116 | in every band the medium and extra-small text shadows are the 8px and 1px glows of that band's glow colour |
| WbsUtils.FillIsBand | frontend/ide/src/lib/wbs/utils.ts:38-114 | the fill is determined by the band, and distinct bands have distinct fills |
| WbsUtils.DistinctFills | frontend/ide/src/lib/wbs/utils.ts:38-114 | no two bands share a fill |
| WbsUtils.ZeroIsNeutral | frontend/ide/src/lib/wbs/utils.ts:38-49 | the neutral band iff the percent is exactly 0; negatives are red; 100 and above are aurora green |
| WbsUtils.BandsMonotone | frontend/ide/src/lib/wbs/utils.ts:49-114 | the band never goes down as the percent grows (away from the special 0) |
| WbsUtils.InsetShadowByThreshold | frontend/ide/src/lib/wbs/utils.ts:31-32 | the inset shadow is the dark one iff percent < 70, the light one iff percent ≥ 70 |
| WbsUtils.BackgroundMatchesGlow | frontend/ide/src/lib/wbs/utils.ts:39-112 | the background uses the glow's RGB with alpha 0.2 |
| WbsUtils.NeutralColours | frontend/ide/src/lib/wbs/utils.ts:38-48 | at 0: neutral glow at 0.5 and background at 0.2 |
| WbsUtils.RedColours | frontend/ide/src/lib/wbs/utils.ts:49-58 | below 30: red glow at 0.4 |
| WbsUtils.OrangeColours | frontend/ide/src/lib/wbs/utils.ts:60-69 | 30 to 50: orange glow at 0.4 |
| WbsUtils.YellowColours | frontend/ide/src/lib/wbs/utils.ts:71-80 | 50 to 70: yellow glow at 0.4 |
| WbsUtils.CyanColours | frontend/ide/src/lib/wbs/utils.ts:82-91 | 70 to 90: cyan glow at 0.5 |
| WbsUtils.PastelGreenColours | frontend/ide/src/lib/wbs/utils.ts:93-102 | 90 to 100: pastel green glow at 0.5 |
| WbsUtils.AuroraGreenColours | frontend/ide/src/lib/wbs/utils.ts:107-114 | 100 and above: aurora green glow at 0.6 |
| FrontLogger.PriorityOrdersLevels | frontend/ide/src/services/logger.ts:22-27 | priorities are distinct and ordered debug < info < warn < error |
| FrontLogger.RaisingLevelSuppresses | frontend/ide/src/services/logger.ts:48-50 | raising the minimum level only suppresses; disabled shows nothing; minimum debug and enabled shows everything |
| FrontLogger.ShouldLog | frontend/ide/src/services/logger.ts:90-92 | nothing is written while the logger is disabled, and an error is always written while it is enabled |
| FrontLogger.Prefix | frontend/ide/src/services/logger.ts:112-113 | at most n characters, a prefix of the input, exactly n when the input is long enough |
| FrontLogger.LevelLabel | frontend/ide/src/services/logger.ts:111 | the level label is always five characters |
| FrontLogger.LevelLabelIsUppercaseName | frontend/ide/src/services/logger.ts:111 | the label is the upper-cased level name padded with spaces to five |
| FrontLogger.Tag | frontend/ide/src/services/logger.ts:112-113 | a bracketed tag appears iff the value is set and non-empty, holding its first `width` characters |
| FrontLogger.ExplicitComponentWins | frontend/ide/src/services/logger.ts:105 | an explicit component overrides the static one and is shown whole; without one the static component is used |
| FrontLogger.FormatLineShape | frontend/ide/src/services/logger.ts:110-128 | a line is `[clock] LEVEL` followed by the component tag, the 8-character trace tag and the message, in that order |
| FrontLogger.FormatEntry | frontend/ide/src/services/logger.ts:110-128 | the console call built from the entry is the formatted line for its level, component and trace id, through the level's console method and style, with the context only when it has a key |
| FrontLogger.LineText | frontend/ide/src/services/logger.ts:110-122 | the template literal over the component and trace tags is the formatted line |
| FrontLogger.ShownContext | frontend/ide/src/services/logger.ts:120 | the context is printed iff it has at least one key |
| FrontLogger.Logger.constructor | frontend/ide/src/services/logger.ts:40-43 | defaults: minimum info, no trace id, no component, enabled, nothing printed |
| FrontLogger.Logger.SetLevel | frontend/ide/src/services/logger.ts:48-50 | sets the minimum level and nothing else |
| FrontLogger.Logger.SetTraceId | frontend/ide/src/services/logger.ts:55-57 | sets the trace id and nothing else |
| FrontLogger.Logger.GetTraceId | frontend/ide/src/services/logger.ts:62-64 | returns the stored trace id |
| FrontLogger.Logger.SetComponent | frontend/ide/src/services/logger.ts:69-71 | sets the component and nothing else |
| FrontLogger.Logger.SetEnabled | frontend/ide/src/services/logger.ts:76-78 | sets the enabled flag and nothing else |
| FrontLogger.Logger.Log | frontend/ide/src/services/logger.ts:97-132 | prints exactly one formatted line, through the level's console method, iff the level passes the filter; otherwise nothing; settings unchanged |
| FrontLogger.Logger.LogDebug | frontend/ide/src/services/logger.ts:137-139 | `Log` at debug |
| FrontLogger.Logger.LogInfo | frontend/ide/src/services/logger.ts:144-146 | `Log` at info |
| FrontLogger.Logger.LogWarn | frontend/ide/src/services/logger.ts:151-153 | `Log` at warn |
| FrontLogger.Logger.LogError | frontend/ide/src/services/logger.ts:158-160 | `Log` at error |
| FrontLogger.Logger.LogWithComponent | frontend/ide/src/services/logger.ts:165-167 | `Log` with the given component shown instead of the static one |
| FrontLogger.ComponentLogger.constructor | frontend/ide/src/services/logger.ts:174 | keeps its component name |
| FrontLogger.ComponentLogger.Log | frontend/ide/src/services/logger.ts:176-190 | delegates to the static logger under its own component name |
| WbsStore.EveryPhaseInOrder | frontend/ide/src/stores/wbsStore.ts:30 | every phase, including Other, is in the fixed phase order |
| WbsStore.IsTaskCompleted | frontend/ide/src/stores/wbsStore.ts:145-147 | SUCCEEDED, COMPLETED and CANCELED count as completed; PENDING, READY, RUNNING, FAILED and BLOCKED never do |
| WbsStore.CountCompleted | frontend/ide/src/stores/wbsStore.ts:145-156 | the completed count never exceeds the task count |
| WbsStore.RoundedPercentage | frontend/ide/src/stores/wbsStore.ts:157 | 0 for no tasks; otherwise the integer nearest to 100·completed/total, halves rounding up; at most 100 |
| WbsStore.RoundingBounds | frontend/ide/src/stores/wbsStore.ts:157 | the integer formula (200c+t) div 2t sits within one half of 100c/t |
| WbsStore.CalculateProgress | frontend/ide/src/stores/wbsStore.ts:150-159 | total is the task count; completed counts SUCCEEDED, COMPLETED and CANCELED; completed ≤ total; percentage in 0..100, and 0 when there are no tasks |
| WbsStore.PhaseKey | frontend/ide/src/stores/wbsStore.ts:168-169 | a task's phase is its phase name when that is one of the five, otherwise Other |
| WbsStore.Leaves | frontend/ide/src/stores/wbsStore.ts:208-219 | one level-2 leaf per task, in order |
| WbsStore.GroupStep | frontend/ide/src/stores/wbsStore.ts:166-181 | one push keeps every bucket equal to the tasks seen so far with that milestone and phase |
| WbsStore.GroupTasks | frontend/ide/src/stores/wbsStore.ts:164-181 | the keys are the milestone keys in first-appearance order, and each bucket holds exactly that milestone's tasks of that phase |
| WbsStore.PhasePass | frontend/ide/src/stores/wbsStore.ts:186-224 | the phase nodes and the milestone's task list are the specification's, over the fixed phase order |
| WbsStore.BuildTree | frontend/ide/src/stores/wbsStore.ts:162-247 | the tree built by the loops is WbsTree of the tasks |
| WbsProperties.LeafTasksOfTree | frontend/ide/src/stores/wbsStore.ts:186-245 | the leaves of the tree, read left to right, are the tasks grouped by milestone key |
| WbsProperties.MilestoneTasksAreKeyTasks | frontend/ide/src/stores/wbsStore.ts:193-224 | a milestone's phase nodes hold exactly its tasks (as a multiset) |
| WbsProperties.MilestoneKeysExact | frontend/ide/src/stores/wbsStore.ts:166-181 | milestone keys are distinct, and a key is listed iff some task has it, so empty milestones are omitted |
| WbsProperties.MilestoneKeysFirstAppearance | frontend/ide/src/stores/wbsStore.ts:166-186 | the keys of a prefix of the task list are a prefix of the keys (first-appearance order) |
| WbsProperties.TreePartitionsTasks | frontend/ide/src/stores/wbsStore.ts:166-224 | the tree's leaves are exactly the input tasks, each once (equal multisets) |
| WbsProperties.KeyHasPhaseNodes | frontend/ide/src/stores/wbsStore.ts:193-224 | a milestone that has tasks has at least one phase node |
| WbsProperties.TreeHasEveryMilestone | frontend/ide/src/stores/wbsStore.ts:186-245 | one milestone node per key, in key order |
| WbsProperties.CountCompletedAppend | frontend/ide/src/stores/wbsStore.ts:145-159 | the completed count is additive over concatenation |
| WbsProperties.LeavesAddUp | frontend/ide/src/stores/wbsStore.ts:199-201 | a phase's counts are the sums over its leaves |
| WbsProperties.PhaseNodesAddUp | frontend/ide/src/stores/wbsStore.ts:199-231 | the sums over a milestone's phase nodes are the counts of its tasks |
| WbsProperties.PhaseNodesRanked | frontend/ide/src/stores/wbsStore.ts:193 | phase nodes built over phases listed in rank order come out in strictly increasing rank |
| WbsProperties.PhaseOrderRanked | frontend/ide/src/stores/wbsStore.ts:30 | the display order lists each phase at its own rank |
| WbsProperties.MilestoneNodeShape | frontend/ide/src/stores/wbsStore.ts:191-243 | milestone id `milestone-<key or default>`, label "General" for the empty key, level 0, counts equal to the sums over its phase nodes, phase children well formed and ordered |
| WbsProperties.PhaseNodeWellFormed | frontend/ide/src/stores/wbsStore.ts:193-222 | a phase node has id `phase-<key or default>-<phase>`, level 1, task leaves as children, and counts adding up |
| WbsView.FlattenInto | frontend/ide/src/stores/wbsStore.ts:260-271 | the recursive flatten appends Flat of the nodes to the accumulated result |
| WbsView.Flat | frontend/ide/src/stores/wbsStore.ts:260-271 | below a collapsed ancestor nothing is emitted (the full characterisation is `FlatShowsExpandedDescendants`) |
| WbsView.ShownAppend | frontend/ide/src/stores/wbsStore.ts:255-276 | the shown nodes of a concatenated walk are the concatenation |
| WbsView.FlatShowsExpandedDescendants | frontend/ide/src/stores/wbsStore.ts:255-276 | flatten emits, in pre-order, exactly the nodes whose strict ancestors are all expanded (roots always) |
| WbsView.FlattenedWbsNodes | frontend/ide/src/stores/wbsStore.ts:255-276 | the flattened list of the tree is the ancestor-closed pre-order selection |
| WbsView.FlatAllExpanded | frontend/ide/src/stores/wbsStore.ts:255-276 | with every inner node expanded, flatten is the full pre-order walk |
| WbsView.ExpandAllShowsWholeTree | frontend/ide/src/stores/wbsStore.ts:255-276 | after expandAll the flattened view is the whole tree in pre-order |
| WbsView.ExpandedStore.constructor | frontend/ide/src/stores/wbsStore.ts:45 | the expanded set starts empty |
| WbsView.ExpandedStore.Toggle | frontend/ide/src/stores/wbsStore.ts:51-61 | flips membership of exactly that id |
| WbsView.ExpandedStore.Expand | frontend/ide/src/stores/wbsStore.ts:64-70 | adds the id (idempotent) |
| WbsView.ExpandedStore.Collapse | frontend/ide/src/stores/wbsStore.ts:73-79 | removes the id (idempotent) |
| WbsView.ExpandedStore.CollapseAll | frontend/ide/src/stores/wbsStore.ts:99-101 | the set becomes empty |
| WbsView.ExpandedStore.ExpandAll | frontend/ide/src/stores/wbsStore.ts:82-96 | the set becomes each milestone id plus its five phase ids |
| WbsView.ExpandedStore.Reset | frontend/ide/src/stores/wbsStore.ts:104-118 | the same set as expandAll |
| WbsView.CollectKeys | frontend/ide/src/stores/wbsStore.ts:83-85 | the milestone keys collected by the loop, in first-appearance order |
| WbsView.OpenAll | frontend/ide/src/stores/wbsStore.ts:87-95 | the ids the loop adds are ExpandAllIds of the tasks |
| WbsView.OpenMilestone | frontend/ide/src/stores/wbsStore.ts:89-94 | one milestone's pass adds exactly its own id and the ids of its five phases |
| WbsView.PhaseNodesOpen | frontend/ide/src/stores/wbsStore.ts:87-95 | once a milestone's phase ids are open, every phase node shown under it is open |
| WbsView.ViewModeStore.constructor | frontend/ide/src/stores/wbsStore.ts:128 | the view mode starts as graph |
| WbsView.ViewModeStore.SetGraph | frontend/ide/src/stores/wbsStore.ts:132 | mode becomes graph |
| WbsView.ViewModeStore.SetWbs | frontend/ide/src/stores/wbsStore.ts:133 | mode becomes wbs |
| WbsView.ViewModeStore.Toggle | frontend/ide/src/stores/wbsStore.ts:134-138 | the mode switches to the other one |
| ProcessStore.InitialState | frontend/ide/src/stores/processStore.ts:19-28 | a single IDLE orchestrator `global-orch` with no children |
| ProcessStore.IndexOf | frontend/ide/src/stores/processStore.ts:36 | the first position carrying the id, or none when no node has it |
| ProcessStore.Upsert | frontend/ide/src/stores/processStore.ts:35-93 | an existing child with the id is returned untouched; otherwise exactly one new child is appended at the end |
| ProcessStore.HandleEvent | frontend/ide/src/stores/processStore.ts:110-162 | an event keeps the number of top-level nodes and their ids |
| ProcessStore.HandleExecutionState | frontend/ide/src/stores/processStore.ts:97-107 | the root's status is RUNNING, PAUSED or else IDLE, and its detail "Orchestrating tasks..." only for RUNNING; no other node changes |
| ProcessStore.UpsertAgain | frontend/ide/src/stores/processStore.ts:35-93 | upserting the same id again finds the same child |
| ProcessStore.ApplyToMetaIdempotent | frontend/ide/src/stores/processStore.ts:110-162 | a repeatable event applied twice to a meta node equals applying it once |
| ProcessStore.HandleEventIdempotent | frontend/ide/src/stores/processStore.ts:110-162 | meta and container events, and worker events with a non-empty command, are idempotent |
| ProcessStore.HandleExecutionStateIdempotent | frontend/ide/src/stores/processStore.ts:97-107 | the execution-state event is idempotent |
| ProcessStore.WorkerExitSuffixAccumulates | frontend/ide/src/stores/processStore.ts:135-141 | an event with an exit code and no (or an empty) command appends " (Exit: <code>)" to whatever detail the worker had, "undefined" standing in for none; a second delivery appends it again, so the detail after two differs from the detail after one |
| ProcessStore.UpsertSize | frontend/ide/src/stores/processStore.ts:35-93 | lookup-or-create adds at most one node |
| ProcessStore.ApplyToMetaSize | frontend/ide/src/stores/processStore.ts:129-162 | an event adds at most two nodes below the meta node |
| ProcessStore.HandleEventSize | frontend/ide/src/stores/processStore.ts:110-162 | the node count never decreases and grows by at most three |
| ProcessStore.UpsertUnique | frontend/ide/src/stores/processStore.ts:35-93 | child ids stay unique per parent |
| ProcessStore.ApplyToMetaUnique | frontend/ide/src/stores/processStore.ts:129-162 | ids stay unique at every level under the meta node |
| ProcessStore.HandleEventUnique | frontend/ide/src/stores/processStore.ts:110-162 | events keep ids unique at every level |
| ProcessStore.HandleEventTouchesOneMeta | frontend/ide/src/stores/processStore.ts:110-126 | a meta update sets the status and detail of `meta-<taskId>`; the root becomes RUNNING iff the state is THINKING, ACTING or PLANNING; other top-level nodes are unchanged |
| ProcessStore.WorkerUpdateEffect | frontend/ide/src/stores/processStore.ts:129-145 | the worker `<metaId>-<workerId>` (`worker-default` when the id is absent or empty) is found or created with that name and no children and gets the event's status; its detail is the command when a non-empty one is given, else its previous detail, and with an exit code " (Exit: <code>)" is appended (to "undefined" when there was no detail) |
| ProcessStore.WorkerUpdateFrame | frontend/ide/src/stores/processStore.ts:129-145 | only the meta node's children change; they grow by one exactly when the worker is new; every other worker, and the found worker's fields other than status and detail, are unchanged |
| ProcessStore.ContainerUpdateEffect | frontend/ide/src/stores/processStore.ts:148-162 | the container, keyed by its raw id under the default worker, gets the event's status; its detail becomes "Image: <image>" when a non-empty image is given and otherwise keeps its previous value (empty for a new container) |
| ProcessStore.ContainerUpdateFrame | frontend/ide/src/stores/processStore.ts:148-162 | only the meta node's children change, and they grow by one exactly when the default worker is new; workers other than the default one are unchanged, and so is every field of the default worker but its children |
| ProcessStore.ContainerUpdateSiblings | frontend/ide/src/stores/processStore.ts:148-162 | the default worker gains one container exactly when the container is new; the other containers, and the found container's fields other than status and detail, are unchanged |
| ProcessStore.WorkerIdOf | frontend/ide/src/stores/processStore.ts:132 | the event's worker id when it is present and non-empty, `worker-default` otherwise |
| ProcessStore.ApplyToMeta | frontend/ide/src/stores/processStore.ts:110-162 | an event changes only the status, detail and children of its meta node: a meta update sets the status and detail and keeps the children, a worker or container update changes only the children |
| MetaUtils.TrimPrefix | internal/meta/utils.go:33-34 | removes the prefix exactly when present |
| MetaUtils.TrimSuffix | internal/meta/utils.go:35 | removes the suffix exactly when present |
| MetaUtils.FindFence | internal/meta/utils.go:18-19 | the scan returns the match that starts at the leftmost position where one exists, or none when no position has one |
| MetaUtils.FindFenceCorrect | internal/meta/utils.go:18-29 | the fence found is the leftmost-first match of the pattern (non-greedy body, whitespace before the newline); when nothing is found, no match exists |
| MetaUtils.FirstBalancedFrom | internal/meta/utils.go:46-58 | the first end position at which the brace count is zero |
| MetaUtils.BalancedPrefixShape | internal/meta/utils.go:42-62 | from the first '{', the chosen end is the shortest balanced prefix with every shorter prefix still open; with no such end every prefix is open |
| MetaUtils.ExtractJson | internal/meta/utils.go:14-65 | the straight-line cascade with its brace loop computes JsonExtraction |
| MetaUtils.ScanBraces | internal/meta/utils.go:42-62 | the brace-counting loop finds the end of the shortest balanced prefix, or none |
| MetaUtils.FindTypeLine | internal/meta/utils.go:98-102 | the first line start with `type:`, whitespace and a word character |
| MetaUtils.JsonExtractionIsTrimmedSubstring | internal/meta/utils.go:14-65 | the JSON extraction is a contiguous substring of the reply with no surrounding white space |
| MetaUtils.YamlExtractionIsTrimmedSubstring | internal/meta/utils.go:69-105 | the YAML extraction is a contiguous substring of the reply with no surrounding white space |
| MetaUtils.ExtractYaml | internal/meta/utils.go:69-105 | the extracted YAML never starts or ends with white space (that it lies within the reply is `YamlExtractionIsTrimmedSubstring`) |
| MetaUtils.JsonFencePrecedence | internal/meta/utils.go:15-29 | a ```json fence wins over a generic one, which wins over all later steps; the fenced body is returned trimmed |
| MetaUtils.JsonBraceFallback | internal/meta/utils.go:42-64 | without fences or enclosing backticks, the result is the shortest balanced prefix from the first '{', trimmed, or the whole trimmed reply when braces never balance |
| MetaUtils.YamlTypeFallback | internal/meta/utils.go:95-104 | without fences or enclosing backticks, the result runs from the first `type:` line to the end, trimmed, and so starts with `type:`; when no line starts `type:`, it is the whole trimmed reply |
| MetaPrompts.Truncate | internal/meta/utils.go:143-145 | content of up to 300 characters is kept; longer content becomes its first 300 characters followed by "..." |
| MetaPrompts.TruncateBound | internal/meta/utils.go:143-145 | at most 303 characters, beginning with the content's own start, and truncating twice equals truncating once |
| MetaPrompts.ListText | internal/meta/utils.go:170-173 | "none" for no items, the item itself for one |
| MetaPrompts.ListTextRoundTrip | internal/meta/utils.go:170-173 | splitting the comma-joined list at commas gives the items back (items without commas) |
| MetaPrompts.ParentText | internal/meta/utils.go:174-177 | "root" iff the parent is absent, empty or "root"; otherwise the parent id |
| MetaPrompts.BuildDecomposeUserPrompt | internal/meta/utils.go:124-151 | the builder's appends produce DecomposePrompt of the request |
| MetaPrompts.AppendHistory | internal/meta/utils.go:138-148 | the history loop appends one truncated line per message |
| MetaPrompts.DecomposeTasksSectionIff | internal/meta/utils.go:131-136 | the prompt starts with the user input, and the "Existing Tasks:" section is present iff there are existing tasks |
| MetaPrompts.DecomposeListsEverything | internal/meta/utils.go:131-148 | every existing task's line and every message's truncated line occurs in the prompt |
| MetaPrompts.ListedTasks | internal/meta/utils.go:165-168 | the listed tasks are the first min(N, 200) |
| MetaPrompts.RecentMessages | internal/meta/utils.go:202-205 | the listed messages are the last min(N, 10) |
| MetaPrompts.BuildPlanPatchUserPrompt | internal/meta/utils.go:155-216 | the builder's appends produce PlanPatchPrompt of the request |
| MetaPrompts.AppendPatchTasks | internal/meta/utils.go:162-181 | the task loop writes the note and the listed tasks' lines |
| MetaPrompts.AppendWbs | internal/meta/utils.go:184-197 | the WBS section lists the root and one line per node index entry |
| MetaPrompts.PatchNoteIff | internal/meta/utils.go:165-168 | the "(showing first 200 of N tasks)" note appears iff there are more than 200 tasks |
| MetaPrompts.PlanPatchListsPrefixAndSuffix | internal/meta/utils.go:161-213 | the first 200 tasks' lines and the last 10 messages' truncated lines all occur in the prompt |
| MetaPrompts.PlanPatchListsNodes | internal/meta/utils.go:184-197 | every WBS node line, with "root" for an absent or empty parent, occurs in the prompt |
| OpenAIProvider.RetryableIff | internal/meta/openai_provider.go:89-111 | with an error, retry unless it is context.Canceled; without one, retry iff the status is 5xx or 429, so 200 and other 4xx are not retried |
| OpenAIProvider.IsRetryableError | internal/meta/openai_provider.go:89-111 | a cancelled request is never retried, nor is a call with neither an error nor a response; a 429 response is retried (the full classification is `RetryableIff`) |
| OpenAIProvider.CallLlm | internal/meta/openai_provider.go:113-220 | the retry loop computes Call of the scripted rounds: result, waits and attempt count |
| OpenAIProvider.RunFromCounts | internal/meta/openai_provider.go:144 | the attempt count from any round stays within the four-attempt budget |
| OpenAIProvider.RunFromDelays | internal/meta/openai_provider.go:160-195 | the waits are 2^k seconds for consecutive k, none after the last attempt |
| OpenAIProvider.CallBounds | internal/meta/openai_provider.go:144-171 | between 1 and 4 requests, at most 3 waits, and a wait after every request but the last unless the context cut the last wait short |
| OpenAIProvider.CallWaits | internal/meta/openai_provider.go:160-195 | the i-th wait is 2^i seconds, so 1, 2, 4 in that order and at most 7 seconds in all |
| OpenAIProvider.StepShape | internal/meta/openai_provider.go:160-171 | one attempt waits at most once, exactly Backoff(k), always before a further attempt, and stops after a wait only when interrupted |
| OpenAIProvider.TotalBackoff | internal/meta/openai_provider.go:184-195 | the three backoffs add up to seven seconds and the cap is eight |
| OpenAIProvider.AllRetriesExhausted | internal/meta/openai_provider.go:216-219 | four retryable failures end in the exhausted error carrying the last one, after waits of 1, 2 and 4 seconds |
| OpenAIProvider.FirstStopDecides | internal/meta/openai_provider.go:157-213 | the first non-retried round decides the result, after exactly that many attempts |
| OpenAIProvider.SuccessShape | internal/meta/openai_provider.go:199-213 | success only from a 200 reply with at least one choice, returning the first choice's content |
| OpenAIProvider.NeverWithoutCause | internal/meta/openai_provider.go:216-219 | the exhausted error always carries a last error |
| OpenAIProvider.ExhaustedMessage | internal/meta/openai_provider.go:217 | the exhausted error reads "LLM request failed after 3 retries: " followed by the last error |
| OpenAIProvider.NewOpenAIProvider | internal/meta/openai_provider.go:30-41 | an empty model is replaced by the default model; key and system prompt are kept |
| OpenAIProvider.RequestBody | internal/meta/openai_provider.go:122-128 | the provider's model, then a system message and a user message in that order |
| OpenAIProvider.SystemPromptFor | internal/meta/openai_provider.go:291-364 | the stored system prompt when non-empty, the built-in one for the purpose otherwise |
| OpenAIProvider.SystemPromptNeverEmpty | internal/meta/openai_provider.go:291-300 | the system prompt sent is never empty |
| OpenAIProvider.UserPromptsCarryInputs | internal/meta/openai_provider.go:301-365 | each user prompt embeds its PRD text or task title at a fixed place |
| Tasks.TaskStore.constructor | internal/orchestrator/task_store_test.go:16 | an empty store |
| Tasks.TaskStore.LoadTask | internal/orchestrator/task_store_test.go:30-40 | the last saved task under that id, or none |
| Tasks.TaskStore.SaveTask | internal/orchestrator/task_store_test.go:26-55 | a successful save replaces the task under its id; a failed one changes nothing |
| Tasks.TaskStore.SaveAttempt | internal/orchestrator/task_store_test.go:74-87 | a successful save replaces the attempt under its id; a failed one changes nothing |
| FsQueue.DirShapes | internal/orchestrator/ipc/filesystem_queue.go:29-31 | the directories are `<ws>/ipc/queue/<pool>` and `<ws>/ipc/processing/<pool>` and never coincide |
| FsQueue.QueueDir | internal/orchestrator/ipc/filesystem_queue.go:29-31 | with a non-empty workspace and pool, the queue directory is `<ws>/ipc/queue/<pool>` |
| FsQueue.ProcessingDir | internal/orchestrator/ipc/filesystem_queue.go:120-123 | with a non-empty workspace and pool, the processing directory is `<ws>/ipc/processing/<pool>` |
| FsQueue.Put | internal/orchestrator/ipc/filesystem_queue.go:46-81 | writing or renaming onto a name replaces that entry, keeps every other and keeps name order |
| FsQueue.Remove | internal/orchestrator/ipc/filesystem_queue.go:110 | removing a name keeps every other entry in order and shrinks the directory by one when the name was there |
| FsQueue.FirstJobEntry | internal/orchestrator/ipc/filesystem_queue.go:65-66 | the first non-directory `.json` entry, or none |
| FsQueue.EnqueueInto | internal/orchestrator/ipc/filesystem_queue.go:34-51 | creates the pool directory and writes `<id>.json` with the job unless a directory has that name; other pools untouched |
| FsQueue.FilesystemQueue.constructor | internal/orchestrator/ipc/filesystem_queue.go:24-26 | no directories exist |
| FsQueue.FilesystemQueue.Enqueue | internal/orchestrator/ipc/filesystem_queue.go:34-51 | the queue becomes EnqueueInto of the old one; processing unchanged |
| FsQueue.FilesystemQueue.Dequeue | internal/orchestrator/ipc/filesystem_queue.go:55-103 | a missing or job-less queue gives no job and no error; otherwise the first job entry moves from queue to processing and is returned, or the claim or decode error is reported |
| FsQueue.FilesystemQueue.Complete | internal/orchestrator/ipc/filesystem_queue.go:106-118 | removes `<id>.json` from processing, whether a file or an empty directory; an absent job is not an error; a non-empty directory of that name is the remove failure and changes nothing; the queue is untouched |
| FsQueue.FilesystemQueue.ListJobs | internal/orchestrator/ipc/filesystem_queue.go:126-143 | the loop's ids are JobIds of the pool's queue, none for a missing queue |
| FsQueue.FindJobEntry | internal/orchestrator/ipc/filesystem_queue.go:65-66 | the entry loop stops at FirstJobEntry |
| FsQueue.FirstJobIsLeast | internal/orchestrator/ipc/filesystem_queue.go:57-66 | the claimed job is the first job file in name order |
| FsQueue.JobIdsIff | internal/orchestrator/ipc/filesystem_queue.go:137-141 | an id is listed iff `<id>.json` is a regular entry |
| FsQueue.EnqueueListed | internal/orchestrator/ipc/filesystem_queue.go:40-46 | an enqueued job is listed and stored under its id; re-enqueueing keeps one file holding the newer job |
| FsQueue.ClaimMoves | internal/orchestrator/ipc/filesystem_queue.go:77-85 | claiming removes exactly that entry from the queue and puts it in processing under its name |
| FsQueue.EnqueueThenClaim | internal/orchestrator/ipc/filesystem_queue.go:34-98 | in a pool with no other job, the next claim takes the job just enqueued |
| FsQueue.CompleteIdempotent | internal/orchestrator/ipc/filesystem_queue.go:106-118 | completing again changes nothing |
| Scheduler.ScheduleOnce | internal/orchestrator/scheduler.go:34-39 | only pending and failed tasks are schedulable, and a task made ready is refused a second time |
| Scheduler.JobIdsDistinct | internal/orchestrator/scheduler.go:46 | equal job ids mean the same task id and timestamp |
| Scheduler.ScheduledJobListed | internal/orchestrator/scheduler.go:45-52 | the scheduled job is listed in its task's pool and a dequeue can hand it back |
| Scheduler.Scheduler.ScheduleTask | internal/orchestrator/scheduler.go:28-67 | load failure and wrong status change nothing; otherwise the task is saved as ready before `job-<id>-<nanos>` with action run_task is enqueued, so an enqueue failure leaves it ready |
| Executor.TaskYaml | internal/orchestrator/executor.go:150-164 | the fixed template with the id once and the title twice at fixed offsets |
| Executor.NewAttempt | internal/orchestrator/executor.go:42-47 | a running attempt for the task, not finished |
| Executor.Started | internal/orchestrator/executor.go:62-64 | the task becomes running with its start time set |
| Executor.Settled | internal/orchestrator/executor.go:93-110 | both succeed iff there is no run error; on failure the summary starts with "Execution failed: <err>" and ends with the output; finish and done times agree |
| Executor.Aborted | internal/orchestrator/executor.go:135-142 | both records fail at the same instant, the attempt carrying the error |
| Executor.OutcomeAgrees | internal/orchestrator/executor.go:92-142 | attempt and task always agree: both succeeded or both failed, with done time equal to finish time |
| Executor.Executor.HandleExecutionError | internal/orchestrator/executor.go:135-148 | both records marked failed and saved, save failures ignored, the original error returned |
| Executor.Executor.SaveRunOutcome | internal/orchestrator/executor.go:93-133 | the attempt gets its finish time and the task its outcome; the attempt is saved before the task, a failed attempt save skips the task save, and each failure is reported as its own error |
| Executor.Executor.ExecuteTask | internal/orchestrator/executor.go:37-133 | a failed first save returns no attempt and leaves the task untouched; a failed running-save returns no attempt; afterwards the outcome is saved attempt first, and each save failure is reported |
| ExecutorV2.GenerateTaskYaml | internal/orchestrator/executor_v2.go:119-150 | the appending loops build TaskYaml: the prompt (goal "" unless a string; constraints only for a list) indented into the PRD block |
| ExecutorV2.PromptLines | internal/orchestrator/executor_v2.go:121-131 | the prompt's lines are the task line, a blank, "Goal:", the goal, then, only for a list, a blank, "Constraints:" and one "- c" per constraint in order |
| ExecutorV2.PrdBlock | internal/orchestrator/executor_v2.go:133-136 | every prompt line appears in the PRD block behind six spaces, newline-terminated; removing the spaces gives the prompt back |
| ExecutorV2.ActionsAgree | internal/orchestrator/executor_v2.go:43-84 | start and result actions share task and attempt ids; the result is "task.succeeded" iff there is no error, "task.failed" otherwise |
| ExecutorV2.Settle | internal/orchestrator/executor_v2.go:100-114 | only the first entry with the task id gets succeeded or failed and the finish time; all others unchanged |
| ExecutorV2.SettleLoaded | internal/orchestrator/executor_v2.go:101-113 | the update loop computes Settle and reports whether the task was found |
| ExecutorV2.Execute | internal/orchestrator/executor_v2.go:37-117 | both history actions are appended regardless; the tasks are saved only when loaded and found, the task's first entry settled by the run, and a failed save leaves them as loaded; the run's error is returned unchanged |
| Persistence.FirstTask | internal/orchestrator/scheduler_v2.go:89-97 | the first task entry with the id, or none |
| Persistence.Workspace.AppendActions | internal/orchestrator/scheduler_v2.go:117-123 | one history write per action, in order |
| SchedulerV2.FirstNode | internal/orchestrator/scheduler_v2.go:147-155 | the first runtime node with the id, or none |
| SchedulerV2.FirstAgent | internal/orchestrator/scheduler_v2.go:100-105 | the first agent with the id, or none |
| SchedulerV2.FirstFreeAgent | internal/orchestrator/scheduler_v2.go:164-173 | the first agent running fewer tasks than its MaxParallel, or none |
| SchedulerV2.Candidates | internal/orchestrator/scheduler_v2.go:46-54 | a task is a candidate iff it is pending with all dependencies satisfied, in task-list order |
| SchedulerV2.Dispatch | internal/orchestrator/scheduler_v2.go:66-106 | one dispatch keeps list lengths and appends at most one action |
| SchedulerV2.AllDependenciesSatisfied | internal/orchestrator/scheduler_v2.go:138-162 | the nested loops compute DepsSatisfied |
| SchedulerV2.SelectCandidates | internal/orchestrator/scheduler_v2.go:46-54 | the filtering loop computes Candidates |
| SchedulerV2.FindAvailableAgent | internal/orchestrator/scheduler_v2.go:164-173 | the id of the first free agent iff one exists |
| SchedulerV2.DispatchStep | internal/orchestrator/scheduler_v2.go:67-106 | the loop body computes Dispatch |
| SchedulerV2.RunDispatch | internal/orchestrator/scheduler_v2.go:66-114 | the dispatch loop computes DispatchAll over the candidates |
| SchedulerV2.CheckAndSchedule | internal/orchestrator/scheduler_v2.go:28-136 | no candidates means no writes; otherwise actions then the modified task and agent lists are persisted |
| SchedulerV2.DepsSatisfiedIff | internal/orchestrator/scheduler_v2.go:138-162 | satisfied iff the design exists and, for each dependency, the first node with that id is implemented or verified; no dependencies means satisfied |
| SchedulerV2.DispatchEffect | internal/orchestrator/scheduler_v2.go:66-106 | with no free agent nothing changes; otherwise one start action, the task id appended to the first free agent, and the first entry with the task id set running on it |
| SchedulerV2.DispatchKeepsCapacity | internal/orchestrator/scheduler_v2.go:66-106 | one dispatch never pushes an agent past MaxParallel (distinct agent ids) |
| SchedulerV2.DispatchAllKeepsCapacity | internal/orchestrator/scheduler_v2.go:66-106 | a whole pass keeps every agent within MaxParallel |
| SchedulerV2.DuplicateAgentIdsOverfill | internal/orchestrator/scheduler_v2.go:100-106 | with two agents sharing an id the task is added to the wrong (full) one |
| SchedulerV2.DispatchAllFlags | internal/orchestrator/scheduler_v2.go:63-103 | tasks and agents are marked modified exactly when something was dispatched |
| SchedulerV2.DispatchAllActions | internal/orchestrator/scheduler_v2.go:76-86 | each action is a "task.started" naming a candidate and an agent; at most one per candidate |
| SchedulerV2.PassWrites | internal/orchestrator/scheduler_v2.go:117-133 | a pass writes its actions, then both lists iff it dispatched anything |
| Worker.TimeoutSec | internal/worker/executor.go:52-55 | MaxRunTimeSec when positive, else 1800 |
| Worker.Command | internal/worker/executor.go:62-68 | the fixed codex command followed by the prompt as last argument |
| Worker.ImageOrDefault | internal/worker/executor.go:123-126 | the configured image or the default one |
| Worker.RepoOrDefault | internal/worker/executor.go:129-132 | the repository path or "." |
| Worker.LocalSandboxIdBreaksLogging | internal/worker/executor.go:71 | the local sandbox's id "local-host" is shorter than the twelve characters the log slice needs |
| Worker.LogId | internal/worker/executor.go:71 | at most the first twelve characters of any id, equal to the slice whenever that is defined |
| Worker.AfterStart | internal/worker/executor.go:115-162 | refused when a container is held; success iff the path resolves and the sandbox starts, then the id is kept; on failure the id stays |
| Worker.AfterStop | internal/worker/executor.go:165-197 | the id is always cleared; no container is an error; otherwise the sandbox is asked to stop it |
| Worker.Executor.constructor | internal/worker/executor.go:28-34 | no container |
| Worker.Executor.RunWorker | internal/worker/executor.go:42-112 | not started is an error; otherwise the exit code, output and error are copied into an Ok result with the fixed command and timeout |
| Worker.Executor.Start | internal/worker/executor.go:115-162 | the state and error are AfterStart's |
| Worker.Executor.Stop | internal/worker/executor.go:165-197 | the state and error are AfterStop's |
| Worker.NoLeakedContainers | internal/worker/executor.go:177-179 | over any sequence of starts and stops, at most one started container has not been asked to stop, exactly one while an id is held |

## Findings

| source | as written | input that shows it | evidently intended | confidence | as-written member | corrected member |
|---|---|---|---|---|---|---|
| internal/worker/executor.go:71 | the log lines slice the container id with `[:12]` | the local sandbox's id "local-host" (10 characters) makes the slice go out of range | log at most the first twelve characters | high, not executed | Worker.LocalSandboxIdBreaksLogging | Worker.LogId |

The same slice appears at lines 119, 158, 175, 185 and 193. `Worker.Executor.RunWorker`
reports the id shown in its log line through `LogId`.

## Left out

- Floating point. Percentages use exact integer rounding, (200c+t) div 2t. Layout snapping uses
  reals. A float `Math.round` can differ on values that are not exactly representable. A NaN
  percent, which the source would put in the aurora-green band, is not modelled.
- Lengths are counted in characters. Go counts bytes and JavaScript counts UTF-16 code units,
  so the 300-character truncation and the 8- and 12-character prefixes agree with the source
  on ASCII text only.
- The dagre layout engine is the parameter `centre`: rank assignment, crossing minimisation and
  graph construction are not modelled.
- `ensurePrompt` and `mergeEnv` are not part of this model. The prompt check is a function
  parameter. The merged environment is recorded as the value `Merged(NoEnv, extra)`.
- The default meta model constant is not part of this model. `OpenAIProvider.NewOpenAIProvider`
  takes it as a parameter.
- HTTP, JSON and YAML decoding, `jsonToYAML`, the Decompose/PlanPatch/PlanTask reply parsing
  and `TestConnection` are left out. An HTTP round is a scripted `Round`.
- OpenAIProvider.RetryableIff: classifies the abstract error kinds; Go's `err == context.Canceled` identity test on wrapped errors is not modelled.
- Timers are events. A toast timer firing is `Expire`. The backoff wait is a recorded delay,
  and a cancellation during the wait is the round's `cut` field.
- Svelte store machinery and Wails `EventsOn` subscriptions are left out. Derived stores are
  functions of their inputs.
- The logger's development-mode initialisation (logger.ts:193-200) is left out, and the clock is
  a parameter. ComponentLogger's four level methods are one `Log(level)` method.
- A toast's action callback is left out.
- ProcessStore.HandleEvent: an empty forest is left unchanged; the source would index a missing first node.
- MetaPrompts.Truncate: states no "unchanged iff short" equivalence, since a 303-character message whose first 300 characters end in "..." is its own truncation.
- SchedulerV2.DispatchAllKeepsCapacity: proved for distinct agent ids only; `SchedulerV2.DuplicateAgentIdsOverfill` shows why.
- The goroutines that start executors after dispatch, and the stdin writer goroutine, are left
  out. Only the sequential state updates are modelled.
- `task_store.go` and the workspace repository are not part of this model. `Tasks.TaskStore`
  keeps the last saved record per id. `Persistence.Workspace` logs writes in order, and a
  scripted outcome decides each task-store save. Load failures other than a missing task are
  not modelled.
- ExecutorV2.Execute: a failing history append is recorded like a successful one. The source
  discards its error and nothing later reads the history, so the outcome would change nothing.
- Repository load failures in `SchedulerV2.CheckAndSchedule` are left out: the pass starts from
  loaded lists. A failing history append or save is treated as succeeding, so the pass's
  early-return error paths are not modelled.
- `filepath.Join` cleaning is modelled only for path parts that need none, such as pool ids
  without `/` or `..`. Directory-creation, read and marshal failures in the queue are left
  out. The write, claim, decode and remove failures are modelled. A directory entry records
  only whether it is empty, not its contents.
- Subprocesses (`os/exec`), the sandbox provider, uuid generation and `time.Now` are left out.
  Their results are parameters.
- Logging through slog, and every log line except the worker's container-id slice, are left out.
