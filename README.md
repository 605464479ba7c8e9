# WebExtract workflow core, modelled in Dafny

WebExtract is a web application for building and running scraping and
document workflows. A workflow is a graph of task nodes, such as launching a
browser, turning a page into HTML, researching links, generating a document,
or exporting to CSV, Power BI or PDF. Nodes are wired from typed outputs to
typed inputs, and a run works through the graph phase by phase. Each phase
calls a step executor with an `Environment` that holds the browser, the page,
the phase's inputs and outputs, the logs and the credits used.

This project models the core of that system and proves properties of it:

- **AI-proposed graphs.** `parseAIWorkflow` turns an AI reply into a graph.
  `generateAutoEdges` chains nodes top to bottom. `validateWorkflow` checks the
  graph, and `optimizeWorkflowLayout` lays it out.
  (`WorkflowAi`, `WorkflowValidation`, `WorkflowLayout`, `FlowOrder`, `AppGraph`)
- **The editor's graph logic.** The connection guard with its cycle search,
  `onConnect`, and `smartMerge` with its collision-free placement.
  (`FlowEditor`)
- **The task catalog.** (`Registry`)
- **Per-run state containers.** The `Environment` class, the log collector,
  the live log hub of the server-sent-events route, and the expiring
  download store. (`Environment`, `LogCollector`, `LogHub`, `FileStorage`)
- **Run control over an in-memory execution table.** Stopping an execution,
  the secret check and guard order of the execute route, the expansion of a
  plan into phase records, and the daily credit statistics.
  (`StopExecution`, `ExecuteRoute`, `DailyCredits`)
- **The deterministic parts of the step executors.** Launch Browser, Page to
  HTML, AI Research Assistant, Generate Document, Detect Language, Read
  Property from JSON, Click Element, and the CSV, Power BI and PDF exports.
  Each executor is a function from its inputs and a record of the services
  it calls to a `Run`: the outputs it sets, the errors it logs, and the
  boolean it returns.
- **Small helpers of the AI builder's panels.** The component library and
  its search, the workflow details panel, and the create and duplicate form
  schemas. (`ComponentPicker`, `WorkflowDetails`, `WorkflowSchema`)

Shared modules hold what the code gets from the JavaScript runtime:

- `Json`: values, truthiness, property reads, spread, `Object.keys`.
- `Strings`: `trim`, `split`, `join`, number formatting, and the UTF-16 code units that `length` counts.
- `InsertionOrder`: `Map` and `Set` key order.
- `CsvText`: CSV cell quoting.
- `ExecutorIo`: step inputs and results.

Where the code changes state in place, the model is a class. These are the
environment, the log collector (whose record list is an object of its own,
shared with every caller of `getAll`), the log hub, the file store, the editor, the
execution table and the stop transition's record. Each such method is proved
against a function of the old state. Loops the source has become `while`
loops with invariants, for example:

- the id map, the auto-edge loop and the DFS placement;
- the header set of the Power BI CSV;
- the URL validation loop and the bounded re-parse loop;
- the daily-credit accumulation.

Where the system's design notes and the code differ, the model follows the
code:

- `setPhase` overwrites an existing output rather than being write-once.
- Stopping an execution that is already finished throws rather than
  succeeding as a no-op.
- `validateWorkflow` checks neither cycles nor handle types.
- A manual run is created `PENDING` while the POST response reports
  `RUNNING`.
- The details panel prices nodes from the component library, so Launch
  Browser costs 5 there, against 1 in the task catalog.

## Model

| member | source | states |
|---|---|---|
| Registry.ParseTypeName | webextract/lib/workflow/task/Registry.tsx:26-48 | every task type is found under its own key |
| Registry.ParseTypeNone | webextract/lib/workflow/task/Registry.tsx:26-48 | a string key finds nothing exactly when no task type has that name |
| Registry.NamesInjective | webextract/lib/workflow/task/Registry.tsx:26-48 | no two task types share a key |
| Registry.AllTypesComplete | webextract/lib/workflow/task/Registry.tsx:26-48 | the catalog has 19 distinct keys and every task type is one of them |
| Registry.Task | webextract/lib/workflow/task/Registry.tsx:22-24 | the descriptor stored under a key has that key as its type; the nine defined descriptors are returned as written |
| Registry.TaskByName | webextract/lib/workflow/task/Registry.tsx:26-48 | a lookup by string finds a descriptor exactly when the string names a task type, and that descriptor's type is named by the string |
| Registry.ShownDescriptors | webextract/lib/workflow/task/Registry.tsx:27-47 | browser launch, research assistant and document generation are entry points, the other six defined tasks are not; every defined descriptor has non-negative credits and distinct input and output names |
| Registry.ShownCredits | webextract/lib/workflow/task/Registry.tsx:27-47 | the credit cost of each of the nine defined tasks (1, 2, 3, 5, 2, 1, 1, 2, 2) |
| Registry.SelectInputsHidden | webextract/lib/workflow/task/Registry.tsx:41-47 | every SELECT input of a defined descriptor hides its handle |
| Registry.BrowserFeedsPageToHtml | webextract/lib/workflow/task/LaunchBrowser.tsx:34-38 | the browser's first output and the HTML step's first input have the same name and the browser-instance type |
| LogCollector.Collector.constructor | webextract/lib/log.ts:3-8 | a new collector owns a fresh, empty list and keeps its levels and whether a callback was given |
| LogCollector.LogList.Push | webextract/lib/log.ts:14 | `push` appends exactly the record to the list |
| LogCollector.Collector.Emit | webextract/lib/log.ts:12-23 | a log call pushes exactly one record with its level, message and time onto the shared list, and hands that record to the callback when there is one |
| LogCollector.Collector.GetAll | webextract/lib/log.ts:6 | returns the collector's own list, not a copy, holding every record logged so far |
| LogCollector.HeldListGrows | webextract/lib/log.ts:6-14 | a list obtained from `getAll` before a log call holds that call's record afterwards |
| LogCollector.EmitAll | webextract/lib/log.ts:10-24 | a series of log calls leaves exactly the series' records after the earlier ones, in call order, each delivered once to the callback |
| FileStorage.FileStore.constructor | webextract/lib/fileStorage.ts:14-15 | the store starts empty |
| FileStorage.FileStore.StoreFile | webextract/lib/fileStorage.ts:20-27 | storing replaces any earlier record under the id and touches no other id |
| FileStorage.FileStore.GetFile | webextract/lib/fileStorage.ts:34-46 | an unknown id gives nothing; a record more than 24 hours old gives nothing and is removed; otherwise the stored record is returned and the store is unchanged |
| FileStorage.ExpiredMeansOlderThanDay | webextract/lib/fileStorage.ts:39-40 | the integer expiry test agrees with the source's division of the age by 3600000 compared with 24 |
| FileStorage.FreshNotExpired | webextract/lib/fileStorage.ts:39-40 | a record read at most exactly 24 hours after it was stored is not expired |
| FileStorage.StoreThenGet | webextract/lib/fileStorage.ts:20-46 | a file stored and read back within 24 hours comes back exactly as stored and stays in the store |
| WorkflowSchema.ParseCreate | webextract/schema/workflows.ts:3-6 | an accepted value always gives a name of 1 to 50 UTF-16 code units and a description of at most 80 units when present |
| WorkflowSchema.ParseCreateAccepts | webextract/schema/workflows.ts:3-6 | a value is accepted exactly when it is an object whose name is a string of 1 to 50 UTF-16 code units and whose description is missing or a string of at most 80 units; the record holds those values |
| WorkflowSchema.CreateRoundTrip | webextract/schema/workflows.ts:3-8 | every record valid by those code-unit bounds survives the trip through the object a form submits and back |
| WorkflowSchema.AstralNameBounds | webextract/schema/workflows.ts:4 | 26 characters outside the Basic Multilingual Plane (52 units) are refused as a name, 1 to 25 of them accepted |
| WorkflowSchema.OtherKeysIgnored | webextract/schema/workflows.ts:3-6 | setting a key other than name and description never changes the verdict or the record |
| WorkflowSchema.DuplicateExtendsCreate | webextract/schema/workflows.ts:10-12 | the duplicate schema accepts exactly what the create schema accepts that also has a string workflowId, with the same name and description |
| StopExecution.StopPhase | webextract/actions/stopExecution.ts:47-58 | the phase update never changes a phase's id, execution or start time |
| StopExecution.BeforeTransitive | webextract/actions/stopExecution.ts:66-68 | the `startedAt desc` order is transitive, for either placement of phases without a start time |
| StopExecution.Refusal | webextract/actions/stopExecution.ts:8-35 | the stop goes ahead exactly when there is a user, the execution exists, the user owns its workflow and its status is RUNNING or PENDING |
| StopExecution.Store.constructor | webextract/actions/stopExecution.ts:16-23 | the store holds the given executions, phases and logs |
| StopExecution.Store.LatestFailed | webextract/actions/stopExecution.ts:61-69 | finds a FAILED phase of the execution that no other FAILED phase of it precedes in `startedAt desc` order, or reports that there is none |
| StopExecution.Store.FailUnfinished | webextract/actions/stopExecution.ts:47-58 | every phase becomes its updated self, in place, and nothing else changes |
| StopExecution.Store.Stop | webextract/actions/stopExecution.ts:7-88 | a refused stop throws the first failing check's message and changes nothing; otherwise the execution becomes FAILED with a completion time, every phase is updated, and one stop log is added exactly when a FAILED phase exists, to a latest one |
| StopExecution.StopPhaseStatus | webextract/actions/stopExecution.ts:47-58 | a phase is FAILED afterwards exactly when it was FAILED before or was an unfinished phase of the stopped execution; completed phases and other executions' phases are untouched |
| StopExecution.NothingLeftRunning | webextract/actions/stopExecution.ts:47-58 | after a stop no phase of that execution is RUNNING, PENDING or CREATED |
| Environment.CloseOrder | webextract/lib/workflow/executor/Environment.ts:110-119 | one close request per slot that is set, the page's first and the browser's last |
| Environment.Environment.constructor | webextract/lib/workflow/executor/Environment.ts:9-18 | a new environment has no browser, no page, no phase values, no logs and zero credits |
| Environment.Environment.SetBrowser | webextract/lib/workflow/executor/Environment.ts:20-23 | sets the browser slot and nothing else |
| Environment.Environment.GetBrowser | webextract/lib/workflow/executor/Environment.ts:25-30 | throws "Browser not initialized" when no browser is set, otherwise returns the last one set |
| Environment.Environment.SetPage | webextract/lib/workflow/executor/Environment.ts:32-35 | sets the page slot and nothing else |
| Environment.Environment.GetPage | webextract/lib/workflow/executor/Environment.ts:37-42 | throws "Page not initialized" when no page is set, otherwise returns the last one set |
| Environment.Environment.GetPhase | webextract/lib/workflow/executor/Environment.ts:48-50 | a key never set reads `undefined` |
| Environment.Environment.SetPhase | webextract/lib/workflow/executor/Environment.ts:44-46 | the key then reads the new value and every other key reads what it read before |
| Environment.Environment.AddCredits | webextract/lib/workflow/executor/Environment.ts:52-55 | the total grows by exactly the amount added and stays the sum of every amount added |
| Environment.Environment.GetCreditsConsumed | webextract/lib/workflow/executor/Environment.ts:57-59 | returns the sum of every amount added since construction |
| Environment.Environment.Info | webextract/lib/workflow/executor/Environment.ts:62-70 | appends one `info` entry with the message and time and changes nothing else |
| Environment.Environment.Error | webextract/lib/workflow/executor/Environment.ts:71-79 | appends one `error` entry with the message and time and changes nothing else |
| Environment.Environment.Success | webextract/lib/workflow/executor/Environment.ts:80-88 | appends one `success` entry with the message and time and changes nothing else |
| Environment.Environment.Warning | webextract/lib/workflow/executor/Environment.ts:89-97 | appends one `warning` entry with the message and time and changes nothing else |
| Environment.Environment.GetAll | webextract/lib/workflow/executor/Environment.ts:98-100 | returns the entries logged so far, in order |
| Environment.Environment.Clear | webextract/lib/workflow/executor/Environment.ts:101-107 | empties the log and changes nothing else |
| Environment.Environment.Cleanup | webextract/lib/workflow/executor/Environment.ts:110-119 | asks the page, then the browser, to close, only those that are set |
| Environment.SumAppend | webextract/lib/workflow/executor/Environment.ts:52-59 | adding one charge adds exactly that amount to the running total |
| Environment.SumNonNegative | webextract/lib/workflow/executor/Environment.ts:52-59 | non-negative charges never give a negative total |
| DailyCredits.InitDays | webextract/actions/analytics/getDailyCreditsStats.ts:54-57 | every day key of the period is set to zero, and the key order is the period's days in first-insertion order |
| DailyCredits.Accumulate | webextract/actions/analytics/getDailyCreditsStats.ts:59-72 | afterwards each day's successful and failed totals are the sums of the COMPLETED and FAILED credits of that day's phases, and a phase's new day is appended to the key order |
| DailyCredits.AccumulateStep | webextract/actions/analytics/getDailyCreditsStats.ts:60-72 | adding one phase keeps every day's totals equal to the sums over the phases seen so far |
| DailyCredits.GetDailyCreditsStats | webextract/actions/analytics/getDailyCreditsStats.ts:12-80 | without a user the call throws "User not found"; otherwise it returns one row per day key in insertion order with that day's sums |
| DailyCredits.RowsOf | webextract/actions/analytics/getDailyCreditsStats.ts:75-79 | one row per key, in key order, holding that key's successful and failed sums |
| DailyCredits.StatsKeys | webextract/actions/analytics/getDailyCreditsStats.ts:46-79 | every day of the period and every day a phase started on has a row, and no day has two rows |
| DailyCredits.ColumnTotals | webextract/actions/analytics/getDailyCreditsStats.ts:59-79 | the successful column adds up to all COMPLETED credits and the failed column to all FAILED credits, so no credit is lost or counted twice |
| DailyCredits.ColumnsAreSums | webextract/actions/analytics/getDailyCreditsStats.ts:75-79 | each column's total is the sum, over the keys, of the per-day sums |
| DailyCredits.SumOverTotal | webextract/actions/analytics/getDailyCreditsStats.ts:59-72 | over distinct keys holding every phase's day, the per-day sums add up to the overall total |
| LogHub.Hub.constructor | webextract/app/api/ws/route.ts:5-8 | the hub starts with no phase sets, no subscribers and nobody disconnected |
| LogHub.Hub.GetOrCreate | webextract/app/api/ws/route.ts:10-15 | an existing phase set is returned unchanged; a missing one is added empty; nothing else changes |
| LogHub.Hub.Broadcast | webextract/app/api/ws/route.ts:18-33 | nothing happens for a phase with no set or an empty set; otherwise every subscriber of the phase that is still connected receives the `data:` frame exactly once, nobody else receives anything, and the subscribers whose enqueue throws leave the set |
| LogHub.Hub.Deliver | webextract/app/api/ws/route.ts:25-32 | the loop keeps exactly the subscribers whose enqueue succeeds, in set order, and appends the frame to each of their frame lists |
| LogHub.DeliverAll | webextract/app/api/ws/route.ts:25-32 | the delivery loop, over the frame lists as a value, builds exactly the kept subscribers and the frame lists of one broadcast |
| LogHub.DeliverStep | webextract/app/api/ws/route.ts:25-32 | one more subscriber grows the kept list and the frame lists by that subscriber alone |
| LogHub.Keep | webextract/app/api/ws/route.ts:25-32 | a subscriber stays exactly when it was in the set and its enqueue does not throw |
| LogHub.KeepDistinct | webextract/app/api/ws/route.ts:25-32 | filtering a set keeps it free of repetitions |
| LogHub.DeliveriesSpec | webextract/app/api/ws/route.ts:25-32 | each connected subscriber's frame list grows by the frame once; every other list is unchanged |
| LogHub.Hub.Subscribe | webextract/app/api/ws/route.ts:35-69 | without a phase id the answer is 400 and nothing is added; otherwise the answer is 200 and a fresh subscriber, whose first frame is the `connected to phase` comment, joins the end of that phase's set |
| LogHub.Hub.Cancel | webextract/app/api/ws/route.ts:61-67 | only that subscriber leaves its phase's set, the phase key stays, and its stream is closed |
| LogHub.Remove | webextract/app/api/ws/route.ts:63 | `delete` leaves exactly the other members of the set |
| LogHub.RemoveDistinct | webextract/app/api/ws/route.ts:63 | deleting keeps the set free of repetitions |
| LogHub.RemoveIdempotent | webextract/app/api/ws/route.ts:63 | cancelling twice is the same as cancelling once |
| LogHub.RemoveAbsent | webextract/app/api/ws/route.ts:63 | deleting a subscriber that is not in the set changes nothing |
| LogHub.Hub.Post | webextract/app/api/ws/route.ts:83-97 | a missing phase id or log gives 400 and no change; otherwise 200 after the same broadcast |
| LogHub.Hub.Disconnect | webextract/app/api/ws/route.ts:26-30 | a client whose stream went away is marked so that later enqueues to it throw; nothing else changes |
| ExecuteRoute.TimingSafeEqual | webextract/app/api/workflows/execute/route.ts:14 | the comparison throws exactly when the lengths differ, and otherwise is true exactly for equal secrets |
| ExecuteRoute.IsValidSecret | webextract/app/api/workflows/execute/route.ts:8-19 | a secret is valid exactly when API_SECRET is set, non-empty and equal to it; a length mismatch is false, not a throw |
| ExecuteRoute.BearerTokenOf | webextract/app/api/workflows/execute/route.ts:24-28 | for `Bearer <token>` with a token without spaces, `split(" ")[1]` gives back the token |
| ExecuteRoute.SplitAfter | webextract/app/api/workflows/execute/route.ts:28 | splitting after a separator-free prefix yields that prefix first |
| ExecuteRoute.SplitWithout | webextract/app/api/workflows/execute/route.ts:28 | text without the separator splits into itself alone |
| ExecuteRoute.RegistryLabelsSpec | webextract/app/api/workflows/execute/route.ts:78 | a node's type has a registry label exactly when it names a task type, and the label is that task's |
| ExecuteRoute.NodeRecordsSpec | webextract/app/api/workflows/execute/route.ts:72-80 | one phase's expansion succeeds exactly when every node's type has a label, and then gives one CREATED row per node in node order |
| ExecuteRoute.PhaseRecordsOk | webextract/app/api/workflows/execute/route.ts:71-81 | the whole plan expands exactly when every planned node's type is a registry key |
| ExecuteRoute.AllKnownCons | webextract/app/api/workflows/execute/route.ts:71-81 | every node of the plan is known exactly when the first phase's nodes and the rest of the plan are |
| ExecuteRoute.PhaseRecordsCount | webextract/app/api/workflows/execute/route.ts:71-81 | a successful expansion has exactly one row per planned node |
| ExecuteRoute.PhaseRecordsAt | webextract/app/api/workflows/execute/route.ts:71-81 | node j of phase i becomes row NodeCount(plan[..i]) + j: a CREATED row with that phase's number, the node's JSON and its registry label |
| ExecuteRoute.RowsAt | webextract/app/api/workflows/execute/route.ts:71-81 | that row of the flattened expansion is row j of phase i's own rows |
| ExecuteRoute.ExecutionDb.constructor | webextract/app/api/workflows/execute/route.ts:41-45 | the execution table starts empty over the stored workflows |
| ExecuteRoute.ExecutionDb.Get | webextract/app/api/workflows/execute/route.ts:21-95 | the guards run in source order (401 for a missing, non-bearer or wrong secret; 400 for a missing id or unknown workflow; a throw for an unparsable plan; 400 for a falsy plan; 500 for a bad cron or unknown task type); only past them is one PENDING CRON execution with the expanded phases appended, answered 200 or 500 after the run |
| ExecuteRoute.ExecutionDb.Post | webextract/app/api/workflows/execute/route.ts:98-191 | 401 without a bearer header, 500 for an unreadable body, 400 when neither id nor workflow is given or only a workflow is, 404 for an unknown id, 400 for a falsy plan, 500 for an unparsable plan or unknown task type; otherwise one PENDING MANUAL execution is appended and the reply reports RUNNING with its id |
| WorkflowAi.FirstIndexOf | webextract/lib/workflow-ai.ts:41 | the index found holds the character and no earlier position does; none means the character is absent |
| WorkflowAi.LastIndexOf | webextract/lib/workflow-ai.ts:41 | the index found holds the character and no later position does; none means the character is absent |
| WorkflowAi.JsonSpanSpec | webextract/lib/workflow-ai.ts:41-45 | the greedy brace match exists exactly when some '{' precedes some '}', and then runs from the first '{' to the last '}' |
| WorkflowAi.ProcessNodes | webextract/lib/workflow-ai.ts:52-64 | rewriting the nodes either fails with a TypeError or keeps their number |
| WorkflowAi.ProcessNodeFixed | webextract/lib/workflow-ai.ts:52-58 | a rewritten node carries its freshly drawn id, the type 'FlowScrapeNode' and the drag handle, whatever the AI sent |
| WorkflowAi.ProcessNodeKeeps | webextract/lib/workflow-ai.ts:54-55 | every other key of the AI's node is kept |
| WorkflowAi.ProcessNodeData | webextract/lib/workflow-ai.ts:59-62 | the new `data` defaults `inputs` to `{}` and keeps every other key of the old `data` |
| WorkflowAi.MapGetSet | webextract/lib/workflow-ai.ts:67-72 | after `set(k, v)`, `get` returns v for k and the old answer for any other key |
| WorkflowAi.StrictEqTransitive | webextract/lib/workflow-ai.ts:67-72 | keys equal to the same key answer alike |
| WorkflowAi.LastMatch | webextract/lib/workflow-ai.ts:68-72 | the index found is the last node whose truthy id equals the key; none means no node has it |
| WorkflowAi.BuildIdMapSpec | webextract/lib/workflow-ai.ts:67-72 | an old id maps to the fresh id of the LAST node carrying it, and ids no node carries are unmapped |
| WorkflowAi.ProcessEdges | webextract/lib/workflow-ai.ts:75-86 | rewriting the edges either fails with a TypeError or keeps their number |
| WorkflowAi.ProcessEdgeSpec | webextract/lib/workflow-ai.ts:75-86 | both ends are renamed through the map (kept when unmapped), the id is the xy-edge id built from them and the handles, and the edge is animated |
| WorkflowAi.ProcessEdgeKeeps | webextract/lib/workflow-ai.ts:79-80 | every other key of the edge, the handles among them, is kept |
| WorkflowAi.FirstVisibleInput | webextract/lib/workflow-ai.ts:376 | the input found is the first one without a hidden handle; none means every input hides its handle |
| WorkflowAi.GenerateAutoEdges | webextract/lib/workflow-ai.ts:346-406 | the method's result is the automatic chain of the stable (y, x) order, or the TypeError a node without position or data raises |
| WorkflowAi.LinkConsecutive | webextract/lib/workflow-ai.ts:361-402 | the loop pushes exactly one chain edge per consecutive pair of sorted nodes |
| WorkflowAi.ChainEdges | webextract/lib/workflow-ai.ts:361-402 | n sorted nodes give max(n - 1, 0) edges |
| WorkflowAi.ChainEdgeEnds | webextract/lib/workflow-ai.ts:381-398 | a chain edge runs from the source's id to the target's id, is named `edge-<source>-<target>` and is animated |
| WorkflowAi.ChainEdgeHandles | webextract/lib/workflow-ai.ts:380-390 | with a source output and a visible target input, the edge carries them as its handles |
| WorkflowAi.ChainEdgeNoHandles | webextract/lib/workflow-ai.ts:391-400 | without them the edge has no handle keys at all |
| WorkflowAi.AutoEdgesSpec | webextract/lib/workflow-ai.ts:351-402 | on success edge i links the i-th and (i+1)-th nodes of the stable (y, x) order, and there are max(n - 1, 0) edges |
| WorkflowAi.AutoEdgesSmall | webextract/lib/workflow-ai.ts:361 | zero or one node gives no edges |
| WorkflowAi.ParseAiWorkflow | webextract/lib/workflow-ai.ts:25-182 | the parse never throws: every failure is one of its four error messages |
| WorkflowAi.StreamingGuard | webextract/lib/workflow-ai.ts:28-37 | in streaming mode more '{' than '}' gives only the streaming error; otherwise streaming mode parses exactly like normal mode |
| WorkflowAi.ParseErrors | webextract/lib/workflow-ai.ts:41-47 | no brace span gives "No JSON found", an unparsable span gives "Failed to parse", and a parsed value of neither shape gives "Invalid workflow structure" (the catch giving "Failed to parse" is at lines 177-181) |
| WorkflowAi.RootShapeFirst | webextract/lib/workflow-ai.ts:50-114 | the root `{nodes, edges}` shape is tried first, so a `workflow` key beside it is ignored |
| WorkflowAi.GeneratedNodes | webextract/lib/workflow-ai.ts:52-110 | a generated workflow has exactly the input nodes, in order, node i rewritten with the i-th fresh id, and the reply's explanation or the default text |
| WorkflowAi.GeneratedEdges | webextract/lib/workflow-ai.ts:75-100 | the rewritten edges are kept when there is at least one and all carry both handles; otherwise the edges are the automatic chain over the rewritten nodes |
| WorkflowValidation.Messages | webextract/lib/workflow-ai.ts:189-242 | one message per collected problem |
| WorkflowValidation.NodeIssuesEmpty | webextract/lib/workflow-ai.ts:204-220 | a node contributes no message exactly when it has an id, a known task type and a position |
| WorkflowValidation.EdgeIssuesEmpty | webextract/lib/workflow-ai.ts:224-243 | an edge contributes no message exactly when it has an id and both ends are ids of nodes |
| WorkflowValidation.AllNodeIssuesEmpty | webextract/lib/workflow-ai.ts:204-221 | no node message is collected exactly when every node passes its checks |
| WorkflowValidation.NodesOkStep | webextract/lib/workflow-ai.ts:204-221 | every node from a position on passes exactly when that node and every later one do |
| WorkflowValidation.AllEdgeIssuesEmpty | webextract/lib/workflow-ai.ts:224-244 | no edge message is collected exactly when every edge passes its checks |
| WorkflowValidation.EdgesOkStep | webextract/lib/workflow-ai.ts:224-244 | every edge from a position on passes exactly when that edge and every later one do |
| WorkflowValidation.Some | webextract/lib/workflow-ai.ts:194-197 | `some` as a loop: the first callback that throws ends it with that error, otherwise the answer is whether some callback returned true |
| WorkflowValidation.EntryCheck | webextract/lib/workflow-ai.ts:194-197 | the entry-point search throws only on an unreadable node, and on readable nodes answers whether some node's registry task is an entry point |
| WorkflowValidation.EntryThrows | webextract/lib/workflow-ai.ts:194-197 | the entry-point search throws only when some node or its data is missing |
| WorkflowValidation.EntryFound | webextract/lib/workflow-ai.ts:194-197 | on readable nodes the search answers whether some node's task is an entry point |
| WorkflowValidation.CheckNodes | webextract/lib/workflow-ai.ts:204-221 | the node loop completes exactly when every node is readable, and then appends every node's problems in order |
| WorkflowValidation.NodeIssuesStep | webextract/lib/workflow-ai.ts:204-221 | one round of the node loop keeps the collected total |
| WorkflowValidation.CheckEdges | webextract/lib/workflow-ai.ts:224-244 | the edge loop completes exactly when no edge is missing, and then appends every edge's problems in order |
| WorkflowValidation.EdgeIssuesStep | webextract/lib/workflow-ai.ts:224-244 | one round of the edge loop keeps the collected total |
| WorkflowValidation.ValidateWorkflow | webextract/lib/workflow-ai.ts:185-250 | the method returns what the validation specification gives: the no-nodes message alone, or the entry, node and edge problems in order |
| WorkflowValidation.ValidateThrows | webextract/lib/workflow-ai.ts:194-244 | with nodes given, the call throws exactly when the nodes are no array, some node or its data is missing, the edges are no array or some edge is missing |
| WorkflowValidation.ValidIffNoErrors | webextract/lib/workflow-ai.ts:246-249 | `isValid` holds exactly when no message was collected |
| WorkflowValidation.NoNodesSingleError | webextract/lib/workflow-ai.ts:188-191 | without nodes the result is invalid with exactly the one message, whatever the edges |
| WorkflowValidation.ValidCharacterization | webextract/lib/workflow-ai.ts:185-250 | a workflow with readable nodes is valid exactly when some node is an entry point, every node has an id, a known type and a position, and every edge has an id and ends that are node ids |
| WorkflowValidation.IssuesEmpty | webextract/lib/workflow-ai.ts:199-244 | no problem is collected exactly when there is an entry node and every node and edge passes |
| WorkflowValidation.ValidateReadable | webextract/lib/workflow-ai.ts:185-250 | on readable nodes and present edges the call returns the collected problems' messages |
| WorkflowValidation.AllNodeIssuesContain | webextract/lib/workflow-ai.ts:204-221 | a problem of any one node is among the collected ones |
| WorkflowValidation.AllEdgeIssuesContain | webextract/lib/workflow-ai.ts:224-244 | a problem of any one edge is among the collected ones |
| WorkflowValidation.MessageOf | webextract/lib/workflow-ai.ts:189-242 | the message of a collected problem is among the messages |
| WorkflowValidation.MissingEntryReported | webextract/lib/workflow-ai.ts:199-201 | without an entry node the entry-point message comes first and the workflow is invalid |
| WorkflowValidation.DanglingEdgeReported | webextract/lib/workflow-ai.ts:234-243 | every edge whose source or target is no node id contributes that message |
| WorkflowValidation.BadNodeReported | webextract/lib/workflow-ai.ts:205-220 | every node without an id or a position contributes that message |
| WorkflowValidation.ValidateOk | webextract/lib/workflow-ai.ts:185-250 | a call on a non-empty node list that returns reports exactly the collected problems |
| AppGraph.NodeMap | webextract/lib/workflow-ai.ts:254 | the id map holds exactly the node ids, each under its own id, and every entry is a node of the list |
| AppGraph.NodeMapDistinct | webextract/lib/workflow-ai.ts:254 | with distinct ids the map returns each node under its own id |
| WorkflowLayout.FirstEntry | webextract/lib/workflow-ai.ts:259-262 | the index found is the first node whose registry task is an entry point; none means no node is one |
| WorkflowLayout.ChildEdges | webextract/lib/workflow-ai.ts:290 | the child edges are exactly the edges leaving the node |
| WorkflowLayout.Unreached | webextract/lib/workflow-ai.ts:307-315 | only nodes of the list that the walk did not visit are left over |
| WorkflowLayout.LeftoverPlacement | webextract/lib/workflow-ai.ts:305-315 | the k-th unvisited node goes to (400k, 600) |
| WorkflowLayout.LeftoverStep | webextract/lib/workflow-ai.ts:307-315 | one round of the leftover pass appends at most the current node, at the next free x |
| WorkflowLayout.UnreachedIds | webextract/lib/workflow-ai.ts:307-315 | the leftover ids are the list's ids outside the visited set, in order |
| WorkflowLayout.LayoutPass.constructor | webextract/lib/workflow-ai.ts:254-256 | the pass starts with the id map of the nodes, nothing visited and nothing placed |
| WorkflowLayout.LayoutPass.Position | webextract/lib/workflow-ai.ts:275-299 | a visited or unknown id changes nothing and returns y; otherwise the node is placed at (x, y) before its descendants, every node it places lies right of x and below y, each visited id is placed exactly once with its own data, and the returned level is at least y + 300 |
| WorkflowLayout.Grid | webextract/lib/workflow-ai.ts:263-272 | without an entry node, node i is moved to (400i, 0) and nothing else changes |
| WorkflowLayout.PlaceLeftovers | webextract/lib/workflow-ai.ts:305-315 | the pass appends exactly the leftover row to the walk's placements |
| WorkflowLayout.OptimizeWorkflowLayout | webextract/lib/workflow-ai.ts:253-318 | edges come back unchanged; without an entry node the one-row layout is returned; otherwise the entry node is placed first at (0, 0), the visited nodes precede the leftover row, and for distinct ids the output holds every input node exactly once with its data and a position |
| WorkflowLayout.LayoutKeepsNodes | webextract/lib/workflow-ai.ts:284-315 | the walk's placements followed by the leftover row hold every input id once, each with its own data and a position |
| WorkflowLayout.LayoutPermutes | webextract/lib/workflow-ai.ts:284-315 | the placed and leftover ids together are a permutation of the input ids |
| WorkflowLayout.DfsIdsWithin | webextract/lib/workflow-ai.ts:276-281 | the walk places exactly the visited ids of the list |
| WorkflowLayout.LeftoversKeepData | webextract/lib/workflow-ai.ts:307-312 | with distinct ids every leftover node is the node the map holds for its id |
| ComponentPicker.TypeAt | webextract/components/ai/ComponentPicker.tsx:46-335 | the i-th library entry's type is the one whose library index is i |
| ComponentPicker.Entry | webextract/components/ai/ComponentPicker.tsx:46-335 | each task type's entry carries that type |
| ComponentPicker.CreditsOf | webextract/components/ai/ComponentPicker.tsx:55-328 | every library price is between 1 and 5 credits |
| ComponentPicker.Library | webextract/components/ai/ComponentPicker.tsx:46-335 | the library has 19 entries, the i-th being the entry of the i-th type in library order |
| ComponentPicker.LibraryIndex | webextract/components/ai/ComponentPicker.tsx:46-335 | every task type has a place among the 19 entries |
| ComponentPicker.TypeAtIndex | webextract/components/ai/ComponentPicker.tsx:46-335 | the entry at a type's index is of that type |
| ComponentPicker.LibraryTypes | webextract/components/ai/ComponentPicker.tsx:46-335 | the 19 entries cover every task type, each once, so no two entries share a type |
| ComponentPicker.EntryPoints | webextract/components/ai/ComponentPicker.tsx:228-238 | only the research assistant is flagged as an entry point |
| ComponentPicker.LaunchCostsDiffer | webextract/components/ai/ComponentPicker.tsx:55 | the library prices a browser launch at 5 credits while the task registry charges 1 |
| ComponentPicker.Search | webextract/components/ai/ComponentPicker.tsx:347-356 | the search result is never longer than the library |
| ComponentPicker.SearchMembers | webextract/components/ai/ComponentPicker.tsx:347-356 | an entry is listed exactly when it is in the library and the lower-cased query is empty or occurs in its name, its description or one of its examples |
| ComponentPicker.SearchConcat | webextract/components/ai/ComponentPicker.tsx:347-356 | the filter distributes over concatenation, so it keeps the library's order |
| ComponentPicker.EmptySearch | webextract/components/ai/ComponentPicker.tsx:348 | an empty query lists the whole library in order |
| ComponentPicker.ClickText | webextract/components/ai/ComponentPicker.tsx:359 | the click text is "Use <name> to " followed by the lower-cased description |
| WorkflowDetails.FindOfType | webextract/components/ai/WorkflowDetails.tsx:41-43 | the index found is an entry of that type; none means no entry has it |
| WorkflowDetails.ComponentInfoSpec | webextract/components/ai/WorkflowDetails.tsx:41-43 | a string naming a task type finds that type's entry; anything else finds nothing |
| WorkflowDetails.ComponentInfoKnown | webextract/components/ai/WorkflowDetails.tsx:41-43 | a task type's name finds that type's entry |
| WorkflowDetails.ComponentInfoUnknown | webextract/components/ai/WorkflowDetails.tsx:41-43 | a value that names no task type finds no entry |
| WorkflowDetails.OfTypeNames | webextract/components/ai/WorkflowDetails.tsx:42 | an entry matches only the string of its own type's name |
| WorkflowDetails.TotalCredits | webextract/components/ai/WorkflowDetails.tsx:45-48 | the total fails with a TypeError exactly when some node or its `data` is missing, and is otherwise at most 5 credits per node |
| WorkflowDetails.AllPriceableSnoc | webextract/components/ai/WorkflowDetails.tsx:45-48 | one more node keeps every type readable exactly when that node's is |
| WorkflowDetails.CreditsBound | webextract/components/ai/WorkflowDetails.tsx:45-48 | the reduction throws exactly at a node without `data`; otherwise the sum of library prices is at most five times the node count |
| WorkflowDetails.NodeCreditsSpec | webextract/components/ai/WorkflowDetails.tsx:46-47 | reading `node.data.type` throws exactly when the node or its `data` is missing; otherwise the node is charged its type's library price, and a node of no known type is free |
| WorkflowDetails.TotalCreditsConcat | webextract/components/ai/WorkflowDetails.tsx:45-48 | the total over two node lists succeeds exactly when both totals do, and is then their sum |
| WorkflowDetails.SumConcat | webextract/components/ai/WorkflowDetails.tsx:45-48 | a sum over a concatenation succeeds exactly when both sums do, and is then their sum |
| WorkflowDetails.CreditsSumSnoc | webextract/components/ai/WorkflowDetails.tsx:45-48 | one more node at the end adds its price to the running sum, and an error from the sum so far or from the node ends the reduce |
| WorkflowDetails.FlowPathSpec | webextract/components/ai/WorkflowDetails.tsx:50-60 | the sort throws exactly when there are two or more nodes and one of them or its position is missing; otherwise the flow path lists every node once, ordered by (y, x), nodes at the same position in their original order |
| FlowOrder.TagFrom | webextract/components/ai/WorkflowDetails.tsx:52 | the copy pairs each node with its original index |
| FlowOrder.Untag | webextract/components/ai/WorkflowDetails.tsx:52 | dropping the indices gives the elements in the same order |
| FlowOrder.Insert | webextract/lib/workflow-ai.ts:351-356 | one insertion adds exactly that element |
| FlowOrder.SortTagged | webextract/lib/workflow-ai.ts:351-356 | sorting the tagged copy permutes it |
| FlowOrder.StableSort | webextract/lib/workflow-ai.ts:351-356 | the sorted copy has as many nodes as the input |
| FlowOrder.TagLessTotal | webextract/lib/workflow-ai.ts:351-356 | two distinct original indices always compare one way or the other |
| FlowOrder.InsertOrdered | webextract/lib/workflow-ai.ts:351-356 | inserting into a strictly ordered list keeps it strictly ordered |
| FlowOrder.SortOrdered | webextract/lib/workflow-ai.ts:351-356 | the sorted tagged copy is strictly ordered by (y, x, original index) |
| FlowOrder.StableSortSpec | webextract/lib/workflow-ai.ts:351-356 | the sort is a permutation of its input and reads a stable arrangement: ordered by (y, x), ties in their original order |
| FlowOrder.UntagInsert | webextract/lib/workflow-ai.ts:351-356 | one insertion adds exactly that element to the untagged list |
| FlowOrder.UntagSort | webextract/lib/workflow-ai.ts:351-356 | the untagged sorted copy is a permutation of the input |
| FlowEditor.FindNode | webextract/app/workflow/_components/FlowEditor.tsx:146-147 | the index found is the first node with that id; none means no node has it |
| FlowEditor.OutputType | webextract/app/workflow/_components/FlowEditor.tsx:157-159 | the type found is that of an output with the handle's name; none means no handle or no such output |
| FlowEditor.InputType | webextract/app/workflow/_components/FlowEditor.tsx:160-162 | the type found is that of an input with the handle's name; none means no handle or no such input |
| FlowEditor.Outgoers | webextract/app/workflow/_components/FlowEditor.tsx:175 | the outgoers are exactly the current nodes that an edge from the node leads to |
| FlowEditor.OutgoerIsStep | webextract/app/workflow/_components/FlowEditor.tsx:175 | moving to an outgoer is one step along an edge |
| FlowEditor.CycleSearch.constructor | webextract/app/workflow/_components/FlowEditor.tsx:170 | a search starts with an empty visited set |
| FlowEditor.CycleSearch.HasCycle | webextract/app/workflow/_components/FlowEditor.tsx:170-179 | `true` means the connection's source is reachable from the node; `false` means every id the call newly visited leads only to visited ids and never to the source |
| FlowEditor.ExtendPath | webextract/app/workflow/_components/FlowEditor.tsx:175-177 | a step followed by a path is a path |
| FlowEditor.ClosedHasNoPath | webextract/app/workflow/_components/FlowEditor.tsx:170-182 | when the visited ids lead only to visited ids other than the source, no path from a visited id reaches the source |
| FlowEditor.NoCycle | webextract/app/workflow/_components/FlowEditor.tsx:181-182 | the guard's last check passes exactly when the source is not reachable from the target |
| FlowEditor.ConnectionEdge | webextract/app/workflow/_components/FlowEditor.tsx:125 | the new edge joins the connection's endpoints and handles and is animated |
| FlowEditor.Connected | webextract/app/workflow/_components/FlowEditor.tsx:125 | an edge identical to an existing one is not added again; otherwise the new edge is appended |
| FlowEditor.ResetOne | webextract/app/workflow/_components/FlowEditor.tsx:129-135 | the connected input becomes "" and every other input is kept as it was |
| FlowEditor.ResetTargetInput | webextract/app/workflow/_components/FlowEditor.tsx:126-135 | the node list keeps its length |
| FlowEditor.ResetTargetInputSpec | webextract/app/workflow/_components/FlowEditor.tsx:126-135 | without a target handle or target node nothing changes; otherwise only the target's connected input is reset, and other inputs and other nodes stay |
| FlowEditor.AcceptedKeepsAcyclic | webextract/app/workflow/_components/FlowEditor.tsx:140-185 | adding a connection the guard accepted keeps an acyclic graph acyclic |
| FlowEditor.StepAfterConnect | webextract/app/workflow/_components/FlowEditor.tsx:125 | a step after the connection is an old step or the new edge |
| FlowEditor.FirstBreak | webextract/app/workflow/_components/FlowEditor.tsx:170-182 | a walk with a step off the old edges has a first such step |
| FlowEditor.LastBreak | webextract/app/workflow/_components/FlowEditor.tsx:170-182 | a walk with a step off the old edges has a last such step |
| FlowEditor.CycleGivesOldPath | webextract/app/workflow/_components/FlowEditor.tsx:170-182 | a cycle through the new edge gives an old path from the connection's target to its source |
| FlowEditor.RoundTrip | webextract/app/workflow/_components/FlowEditor.tsx:170-182 | going round a closed walk from after its last new step to its first new step uses old steps only |
| FlowEditor.SelfLoopRejected | webextract/app/workflow/_components/FlowEditor.tsx:143 | a connection from a node to itself is rejected |
| FlowEditor.MissingEndpointRejected | webextract/app/workflow/_components/FlowEditor.tsx:146-152 | a connection with an endpoint that is not a current node is rejected |
| FlowEditor.ConnectionAccepted | webextract/app/workflow/_components/FlowEditor.tsx:154-182 | between two registered nodes the connection is accepted exactly when the named output and input have the same declared type (an unknown handle counting as no type) and the source is not reachable from the target |
| FlowEditor.UnknownTaskThrows | webextract/app/workflow/_components/FlowEditor.tsx:154-157 | an endpoint of a type not in the registry makes the guard throw |
| FlowEditor.InputOf | webextract/app/workflow/_components/FlowEditor.tsx:194-200 | an input is read exactly when the node has inputs holding that key |
| FlowEditor.OriginalBrowser | webextract/app/workflow/_components/FlowEditor.tsx:193-195 | the node found is the first current node with a non-empty "Website Url" input, of any type |
| FlowEditor.OriginalWebhook | webextract/app/workflow/_components/FlowEditor.tsx:196-198 | the node found is the first current webhook node |
| FlowEditor.Preserve | webextract/app/workflow/_components/FlowEditor.tsx:193-200 | the kept site URL and webhook URL, and the positions, come from those two nodes |
| FlowEditor.MergedDataSpec | webextract/app/workflow/_components/FlowEditor.tsx:219-232 | browser nodes with inputs get the kept site URL and webhook nodes the kept target URL; every other input and the task type stay as they came |
| FlowEditor.RowShrinks | webextract/app/workflow/_components/FlowEditor.tsx:208-211 | each move right leaves fewer used slots ahead on the row, so the loop ends |
| FlowEditor.FirstFreeSpec | webextract/app/workflow/_components/FlowEditor.tsx:203-214 | the slot settled on is free, on the same row, a whole number of 320 steps to the right, and every slot skipped was used |
| FlowEditor.Placer.constructor | webextract/app/workflow/_components/FlowEditor.tsx:202-217 | the used set starts as the current nodes' positions |
| FlowEditor.Placer.Place | webextract/app/workflow/_components/FlowEditor.tsx:203-214 | `place` returns the first free slot from its start and claims it |
| FlowEditor.Editor.constructor | webextract/app/workflow/_components/FlowEditor.tsx:38-39 | the editor holds the given nodes and edges |
| FlowEditor.Editor.IsValidConnection | webextract/app/workflow/_components/FlowEditor.tsx:140-185 | the method returns the guard's verdict: self-loop, missing node, type mismatch and reachable source reject; an unregistered type throws |
| FlowEditor.Editor.OnConnect | webextract/app/workflow/_components/FlowEditor.tsx:123-138 | the edges gain the animated connection and only the target's connected input is reset |
| FlowEditor.Editor.SmartMerge | webextract/app/workflow/_components/FlowEditor.tsx:188-248 | with no incoming nodes the current graph is returned; otherwise one node per incoming node, with its id, preserved URLs and a position on its preferred row, a whole number of steps right of its preferred slot, on no current node and on no other merged node; the edges are the incoming ones when there are any, else the current ones |
| ReadProperty.UnwrapJson | webextract/lib/workflow/executor/ReadPropertyFromJsonExecutor.ts:21-36 | the re-parse loop ends with the value and parse count the unwrapping function gives |
| ReadProperty.UnwrapStops | webextract/lib/workflow/executor/ReadPropertyFromJsonExecutor.ts:23-36 | the loop makes at most five parses, and it stops on a string only when the five are used up or that string does not parse |
| ReadProperty.Wrapped | webextract/lib/workflow/executor/ReadPropertyFromJsonExecutor.ts:20 | a value stringified at least once is a string |
| ReadProperty.UnwrapWrapped | webextract/lib/workflow/executor/ReadPropertyFromJsonExecutor.ts:20-36 | when parsing undoes stringifying, a non-string value stringified n times is recovered with exactly n parses while the five attempts cover them |
| ReadProperty.TooDeeplyWrapped | webextract/lib/workflow/executor/ReadPropertyFromJsonExecutor.ts:23-36 | six levels of stringification leave a string after the fifth parse |
| ReadProperty.WrappedShift | webextract/lib/workflow/executor/ReadPropertyFromJsonExecutor.ts:20 | wrapping n + 1 times is wrapping the once-wrapped value n times |
| ReadProperty.UnwrapWrappedString | webextract/lib/workflow/executor/ReadPropertyFromJsonExecutor.ts:23-36 | the remaining parses peel exactly as many levels off any value, a string included |
| ReadProperty.OutputValue | webextract/lib/workflow/executor/ReadPropertyFromJsonExecutor.ts:61-63 | an object-typed value is output as its JSON text, any other value as it is |
| ReadProperty.OutputIsPrimitive | webextract/lib/workflow/executor/ReadPropertyFromJsonExecutor.ts:61-63 | the output value is never object-typed |
| ReadProperty.NotObjectErrors | webextract/lib/workflow/executor/ReadPropertyFromJsonExecutor.ts:39-43 | a value that is no object logs exactly two errors |
| ReadProperty.ReadPropertyFromJson | webextract/lib/workflow/executor/ReadPropertyFromJsonExecutor.ts:4-72 | the executor runs the input guards, the re-parse loop, the object check, the lookup and the output, as its run specification says |
| ReadProperty.ReadPropertyOutcome | webextract/lib/workflow/executor/ReadPropertyFromJsonExecutor.ts:8-67 | the step succeeds exactly when both inputs are present, the unwrapped value is an object or array and has the property; it then outputs that value (as JSON text when object-typed) and no error; every failure has no output and at least one error |
| ReadProperty.NestedJsonRead | webextract/lib/workflow/executor/ReadPropertyFromJsonExecutor.ts:20-53 | an object stringified one to five times is read as if given directly; stringified six times it is refused after five parses |
| DetectLanguage.EnglishWordCount | webextract/lib/workflow/executor/DetectLanguageExecutor.ts:42 | no more common English words are counted than there are words |
| DetectLanguage.EnglishWordCountZero | webextract/lib/workflow/executor/DetectLanguageExecutor.ts:40-42 | the count is zero exactly when no word is one of the fifteen common English words |
| DetectLanguage.Detect | webextract/lib/workflow/executor/DetectLanguageExecutor.ts:15-50 | the detection is one of the six fixed answers |
| DetectLanguage.ScriptOfRawText | webextract/lib/workflow/executor/DetectLanguageExecutor.ts:16-35 | trimming and lower-casing neither add nor remove a character of an Indic script range, so each script test gives the raw text's answer |
| DetectLanguage.LowerKeepsScript | webextract/lib/workflow/executor/DetectLanguageExecutor.ts:16 | lower-casing keeps every character above 'z' and creates none |
| DetectLanguage.TrimKeepsScript | webextract/lib/workflow/executor/DetectLanguageExecutor.ts:16 | trimming removes only whitespace, which no script range holds |
| DetectLanguage.FramedScript | webextract/lib/workflow/executor/DetectLanguageExecutor.ts:16 | a slice that drops only whitespace keeps every script character |
| DetectLanguage.DetectSpec | webextract/lib/workflow/executor/DetectLanguageExecutor.ts:15-50 | on the raw text the first script present among Devanagari, Tamil, Bengali and Kannada decides (so Marathi is reported as Hindi); otherwise English, with 0.8 exactly when more than a tenth of the words are common English words and 0.3 else |
| DetectLanguage.NoEnglishWords | webextract/lib/workflow/executor/DetectLanguageExecutor.ts:44-49 | a text without any common English word that is reported as English gets the low confidence |
| DetectLanguage.ConfidenceText | webextract/lib/workflow/executor/DetectLanguageExecutor.ts:55 | a confidence below 1 prints with a leading '0' |
| DetectLanguage.ConfidenceTexts | webextract/lib/workflow/executor/DetectLanguageExecutor.ts:21-55 | the four confidences print as "0.85", "0.95", "0.8" and "0.3" |
| DetectLanguage.DetectConfidence | webextract/lib/workflow/executor/DetectLanguageExecutor.ts:15-55 | every detection has one of the four confidences, printed as above |
| DetectLanguage.DetectLanguageOutputs | webextract/lib/workflow/executor/DetectLanguageExecutor.ts:8-60 | a missing text fails with its error; otherwise the step succeeds with the code, the confidence text and the input text unchanged, in that order |
| ClickElement.NonEmptyParts | webextract/lib/workflow/executor/ClickElementExecutor.ts:20 | the kept class names are non-empty pieces of the split |
| ClickElement.ClassParts | webextract/lib/workflow/executor/ClickElementExecutor.ts:20 | every class name is non-empty and holds no space |
| ClickElement.FixTrimmed | webextract/lib/workflow/executor/ClickElementExecutor.ts:18-23 | a selector that does not start with '.' or has no space is kept; a fixed one starts with '.' |
| ClickElement.SplitLast | webextract/lib/workflow/executor/ClickElementExecutor.ts:20 | the last piece of a split keeps the text's last character when that is not the separator |
| ClickElement.NonEmptyPartsLast | webextract/lib/workflow/executor/ClickElementExecutor.ts:20 | dropping empty pieces keeps a non-empty last piece last |
| ClickElement.JoinLast | webextract/lib/workflow/executor/ClickElementExecutor.ts:21 | a join ends with its last part's last character |
| ClickElement.SplitPiecesFrom | webextract/lib/workflow/executor/ClickElementExecutor.ts:20 | no split piece holds a character the text lacks |
| ClickElement.FixedForm | webextract/lib/workflow/executor/ClickElementExecutor.ts:18-21 | a fixed selector starts with '.', holds no space and ends in the original last character |
| ClickElement.FixedHasNoSpace | webextract/lib/workflow/executor/ClickElementExecutor.ts:15-23 | a selector whose trimmed form starts with '.' comes out without spaces, a compound class selector |
| ClickElement.TrimmedHasNoSpace | webextract/lib/workflow/executor/ClickElementExecutor.ts:18-23 | the same for an already trimmed selector |
| ClickElement.FixIdempotent | webextract/lib/workflow/executor/ClickElementExecutor.ts:15-23 | cleaning a cleaned selector changes nothing |
| ClickElement.FixedIsFinal | webextract/lib/workflow/executor/ClickElementExecutor.ts:18-23 | the fix of a trimmed selector is trimmed and needs no further fix |
| ClickElement.FixKeepsClasses | webextract/lib/workflow/executor/ClickElementExecutor.ts:18-21 | when the selector has no inner dot, splitting the fixed selector at its dots gives back exactly the space-separated class names |
| ClickElement.FirstFound | webextract/lib/workflow/executor/ClickElementExecutor.ts:49-58 | the selector found is the first of the list that appears; none means none appears |
| ClickElement.TryAlternatives | webextract/lib/workflow/executor/ClickElementExecutor.ts:41-58 | the loop stops at the first of the five alternatives that appears |
| ClickElement.Click | webextract/lib/workflow/executor/ClickElementExecutor.ts:62-69 | the click keeps the errors so far and succeeds exactly when it does not throw |
| ClickElement.ClickElementStep | webextract/lib/workflow/executor/ClickElementExecutor.ts:4-70 | the executor runs the guards, the fix, the wait, the fallback loop and the click, as its run specification says |
| ClickElement.Target | webextract/lib/workflow/executor/ClickElementExecutor.ts:34-59 | the clicked selector is the fixed one when it appears, else the first alternative that appears, else the fixed one anyway |
| ClickElement.ClickElementOutcome | webextract/lib/workflow/executor/ClickElementExecutor.ts:8-69 | a missing selector or page fails with its error; otherwise the step succeeds exactly when clicking the target does not throw, and the not-found error comes first whenever the fixed selector did not appear |
| LaunchBrowser.NonSpaceRun | webextract/lib/workflow/executor/LaunchBrowserExecutor.ts:44 | the run is a prefix of non-whitespace characters that ends at a whitespace character or at the end of the text |
| LaunchBrowser.Scheme | webextract/lib/workflow/executor/LaunchBrowserExecutor.ts:44 | the `https?://` prefix is absent, seven or eight characters long |
| LaunchBrowser.MatchLen | webextract/lib/workflow/executor/LaunchBrowserExecutor.ts:44 | the pattern's match at a position never runs past the end of the text |
| LaunchBrowser.MatchesShaped | webextract/lib/workflow/executor/LaunchBrowserExecutor.ts:44 | every global match starts with `http://` or `https://`, has at least one character after it and holds no whitespace |
| LaunchBrowser.ShapedIsTrimmed | webextract/lib/workflow/executor/LaunchBrowserExecutor.ts:46 | trimming a match leaves it unchanged |
| LaunchBrowser.TrimAll | webextract/lib/workflow/executor/LaunchBrowserExecutor.ts:41 | each entry is the trimmed entry at the same position, and the length is kept |
| LaunchBrowser.TrimMatches | webextract/lib/workflow/executor/LaunchBrowserExecutor.ts:44-46 | trimming the global matches changes none of them |
| LaunchBrowser.NonEmpty | webextract/lib/workflow/executor/LaunchBrowserExecutor.ts:50 | the length filter keeps exactly the non-empty texts, none of them empty |
| LaunchBrowser.AllLinks | webextract/lib/workflow/executor/LaunchBrowserExecutor.ts:35-50 | process-all mode yields no empty URL |
| LaunchBrowser.FirstLink | webextract/lib/workflow/executor/LaunchBrowserExecutor.ts:57-60 | single-link mode yields at most one URL |
| LaunchBrowser.FirstLinkIsFirstMatch | webextract/lib/workflow/executor/LaunchBrowserExecutor.ts:57-60 | single-link mode takes the first global match, URL-shaped, or nothing when there is none |
| LaunchBrowser.UrlPriority | webextract/lib/workflow/executor/LaunchBrowserExecutor.ts:24-65 | research links with Process All Links "true" give all links, other research links only the first, the website URL counts only without research links, and no input gives no URL |
| LaunchBrowser.LinksWithoutUrl | webextract/lib/workflow/executor/LaunchBrowserExecutor.ts:31-65 | research links in which the pattern finds nothing and whose lines are not all http lines leave no URL, whatever the website URL |
| LaunchBrowser.LinesTaken | webextract/lib/workflow/executor/LaunchBrowserExecutor.ts:38-50 | when every non-blank line starts with `http`, process-all mode takes those lines trimmed, in order |
| LaunchBrowser.TrimmedKept | webextract/lib/workflow/executor/LaunchBrowserExecutor.ts:38-50 | non-blank lines survive the length filter after trimming |
| LaunchBrowser.MatchesTaken | webextract/lib/workflow/executor/LaunchBrowserExecutor.ts:42-50 | otherwise process-all mode takes exactly the global matches |
| LaunchBrowser.NonEmptyKeepsAll | webextract/lib/workflow/executor/LaunchBrowserExecutor.ts:50 | the length filter keeps a list of non-empty texts as it is |
| LaunchBrowser.ValidUrls | webextract/lib/workflow/executor/LaunchBrowserExecutor.ts:73-87 | no more valid URLs than candidates |
| LaunchBrowser.InvalidUrls | webextract/lib/workflow/executor/LaunchBrowserExecutor.ts:73-87 | no more invalid URLs than candidates |
| LaunchBrowser.SplitUrls | webextract/lib/workflow/executor/LaunchBrowserExecutor.ts:73-87 | the validation loop builds exactly the valid hrefs and the rejected URLs, in order |
| LaunchBrowser.UrlsCounted | webextract/lib/workflow/executor/LaunchBrowserExecutor.ts:76-87 | every candidate lands on exactly one side |
| LaunchBrowser.ValidUrlsSound | webextract/lib/workflow/executor/LaunchBrowserExecutor.ts:78-80 | each valid entry is the href of a candidate that parses with protocol http: or https: |
| LaunchBrowser.InvalidUrlsSound | webextract/lib/workflow/executor/LaunchBrowserExecutor.ts:81-86 | each invalid entry is a candidate that does not parse or has another protocol |
| LaunchBrowser.NoValidUrls | webextract/lib/workflow/executor/LaunchBrowserExecutor.ts:93-96 | no valid URL is left exactly when no candidate is accepted |
| LaunchBrowser.LaunchWith | webextract/lib/workflow/executor/LaunchBrowserExecutor.ts:67-70 | no candidate URL fails with the "No URL provided" error |
| LaunchBrowser.LaunchBrowserStep | webextract/lib/workflow/executor/LaunchBrowserExecutor.ts:6-247 | the executor's result is the URL choice followed by validation, launch and page work |
| LaunchBrowser.LaunchOutcome | webextract/lib/workflow/executor/LaunchBrowserExecutor.ts:89-231 | the step fails when no candidate is accepted, sets the two outputs exactly when it succeeds with more than one valid URL, then Pages Processed is their count, and success implies a valid URL and a launched browser |
| PageToHtml.PageWithoutHtml | webextract/lib/workflow/executor/PageToHtmlExecutor.ts:31-32 | a page with a falsy `html` still gets its source comment and title heading, followed by an empty body |
| PageToHtml.PageBlocks | webextract/lib/workflow/executor/PageToHtmlExecutor.ts:31-32 | one block per page, in page order |
| PageToHtml.CombinedInOrder | webextract/lib/workflow/executor/PageToHtmlExecutor.ts:31-33 | each page's block sits in the combined HTML after the blocks of earlier pages and a newline, and before a newline and the later pages' blocks |
| PageToHtml.JoinAround | webextract/lib/workflow/executor/PageToHtmlExecutor.ts:33 | a part of a join is framed by the joins of the parts before and after it |
| PageToHtml.PageBlocksConcat | webextract/lib/workflow/executor/PageToHtmlExecutor.ts:31-32 | the blocks of two page lists are the blocks of each, in order |
| PageToHtml.PagesCountText | webextract/lib/workflow/executor/PageToHtmlExecutor.ts:46 | the Pages Count text denotes the number of pages |
| PageToHtml.PageToHtmlOutcome | webextract/lib/workflow/executor/PageToHtmlExecutor.ts:11-83 | with page data the step succeeds exactly when it parses to an array without null pages, then outputs the combined HTML, the full data and the count, else fails with the parse error; without data it needs an open page, whose HTML it outputs with count "1" |
| ResearchAssistant.Thrown | webextract/lib/workflow/executor/AiResearchAssistantExecutor.ts:119-121 | a thrown error ends the step unsuccessfully, with no outputs and one error log carrying its message |
| ResearchAssistant.SliceEnd | webextract/lib/workflow/executor/AiResearchAssistantExecutor.ts:87 | the end `slice(0, N)` uses: 0 for NaN, counted back from the end when negative, never past the end |
| ResearchAssistant.LinkOfSpec | webextract/lib/workflow/executor/AiResearchAssistantExecutor.ts:88-89 | a result's link is kept exactly when it is a string starting with `http`; the chain throws exactly on a missing result or a truthy non-string link |
| ResearchAssistant.CleanLinks | webextract/lib/workflow/executor/AiResearchAssistantExecutor.ts:86-89 | no more links than results, each starting with `http` |
| ResearchAssistant.CleanLinksFails | webextract/lib/workflow/executor/AiResearchAssistantExecutor.ts:86-89 | the chain fails exactly when one of the results makes it throw |
| ResearchAssistant.CleanLinksKept | webextract/lib/workflow/executor/AiResearchAssistantExecutor.ts:86-89 | a link is output exactly when some result keeps it |
| ResearchAssistant.CleanLinksConcat | webextract/lib/workflow/executor/AiResearchAssistantExecutor.ts:86-89 | the links keep the results' order |
| ResearchAssistant.CleanLinksError | webextract/lib/workflow/executor/AiResearchAssistantExecutor.ts:88-89 | whatever the chain throws is a TypeError |
| ResearchAssistant.LinkCountText | webextract/lib/workflow/executor/AiResearchAssistantExecutor.ts:21 | the link count is read from the input, or from "5" when that is missing or empty |
| ResearchAssistant.ResearchGuards | webextract/lib/workflow/executor/AiResearchAssistantExecutor.ts:14-29 | a missing query fails first with its error, then a missing credential with its own |
| ResearchAssistant.NoOrganicResults | webextract/lib/workflow/executor/AiResearchAssistantExecutor.ts:78-83 | a response with no results or an empty list of them fails with "No search results found" |
| ResearchAssistant.ResearchLinks | webextract/lib/workflow/executor/AiResearchAssistantExecutor.ts:85-107 | with a list of results the step succeeds exactly when the first N pass the chain, then outputs those links joined by newlines, their count and the summary, at most N links, each starting with `http`; otherwise it throws a TypeError |
| ResearchAssistant.ResearchOutcome | webextract/lib/workflow/executor/AiResearchAssistantExecutor.ts:7-123 | the step succeeds exactly when every guard passes, the search answers and the response yields links; a failure has no outputs and one error log |
| ResearchAssistant.LinksText | webextract/lib/workflow/executor/AiResearchAssistantExecutor.ts:92 | splitting the Research Links text on newlines gives the links back when none holds a newline |
| ResearchAssistant.LinkCountStated | webextract/lib/workflow/executor/AiResearchAssistantExecutor.ts:99-106 | the Link Count output denotes the number of links and the summary starts with "Found" and that number |
| CsvText.Quote | webextract/lib/workflow/executor/ExportToCSVExecutor.ts:69-70 | a quoted cell starts and ends with a double quote |
| CsvText.UndoubleDoubled | webextract/lib/workflow/executor/ExportToCSVExecutor.ts:70 | undoubling the doubled quotes gives the text back |
| CsvText.UnquoteQuote | webextract/lib/workflow/executor/ExportToCSVExecutor.ts:69-70 | a quoted cell reads back as exactly the text that was quoted |
| CsvText.QuoteLength | webextract/lib/workflow/executor/ExportToCSVExecutor.ts:70 | doubling the quotes adds exactly one character per quote in the text |
| ExportToCsv.WithMetadata | webextract/lib/workflow/executor/ExportToCSVExecutor.ts:43-54 | adding metadata keeps the number of records |
| ExportToCsv.Cell | webextract/lib/workflow/executor/ExportToCSVExecutor.ts:66-72 | a string that holds a comma, a quote or a newline becomes a cell that reads back as that string; any other value is kept as it is |
| ExportToCsv.Row | webextract/lib/workflow/executor/ExportToCSVExecutor.ts:65-73 | a line fails exactly when the record is null or undefined and there is a column to read |
| ExportToCsv.Rows | webextract/lib/workflow/executor/ExportToCSVExecutor.ts:65-74 | the lines fail exactly when some record's line fails; otherwise there is one line per record, each that record's line |
| ExportToCsv.Guards | webextract/lib/workflow/executor/ExportToCSVExecutor.ts:8-18 | a missing Data fails first with its message, then a missing Include Metadata; success needs both |
| ExportToCsv.ParsedRecords | webextract/lib/workflow/executor/ExportToCSVExecutor.ts:25-30 | JSON input gives an array's elements as the records, any other value as the only record |
| ExportToCsv.TextRecords | webextract/lib/workflow/executor/ExportToCSVExecutor.ts:31-39 | text input gives one record per non-blank line, record i with id i + 1 and the trimmed line as content |
| ExportToCsv.LineRecordFields | webextract/lib/workflow/executor/ExportToCSVExecutor.ts:34-39 | a line's record has id i + 1 and the trimmed line as content |
| ExportToCsv.LineRecordId | webextract/lib/workflow/executor/ExportToCSVExecutor.ts:35 | a line's record has id i + 1 |
| ExportToCsv.LineRecordContent | webextract/lib/workflow/executor/ExportToCSVExecutor.ts:36 | a line's record has the trimmed line as content |
| ExportToCsv.SecondFieldRead | webextract/lib/workflow/executor/ExportToCSVExecutor.ts:34-39 | the second of two differently named leading fields is read by its name |
| ExportToCsv.MetadataFields | webextract/lib/workflow/executor/ExportToCSVExecutor.ts:44-53 | with metadata, a record's field is the metadata value for the seven metadata keys and its own value otherwise; extraction_method is "web-extract-ai" |
| ExportToCsv.CsvShape | webextract/lib/workflow/executor/ExportToCSVExecutor.ts:62-76 | the CSV is the header of the first record's keys followed by one line per record, each cell the record's value under that column, quoted when needed |
| ExportToCsv.EmptyFails | webextract/lib/workflow/executor/ExportToCSVExecutor.ts:57-60 | zero records fails with "No data to export" once both inputs are present |
| ExportToPowerBi.ChartKind | webextract/lib/workflow/executor/ExportToPowerBIExecutor.ts:12-90 | the lower-cased chart type selects bar for bar/column, pie for pie/doughnut, line for line/area/trend, scatter, table for table/matrix, and the default arm otherwise |
| ExportToPowerBi.NumberOr | webextract/lib/workflow/executor/ExportToPowerBIExecutor.ts:20-45 | `Number(v) \|\| d` keeps a non-zero number as it is |
| ExportToPowerBi.FirstTruthy | webextract/lib/workflow/executor/ExportToPowerBIExecutor.ts:19-31 | an `\|\|` chain yields its first operand when that is truthy and its last when the others are falsy |
| ExportToPowerBi.Over | webextract/lib/workflow/executor/ExportToPowerBIExecutor.ts:18-22 | spreading an item over the computed fields gives an object |
| ExportToPowerBi.Heading | webextract/lib/workflow/executor/ExportToPowerBIExecutor.ts:19-31 | the bar category or pie label is the item's first field when truthy, and the numbered fallback when neither it, `text` nor `name` is truthy |
| ExportToPowerBi.Amount | webextract/lib/workflow/executor/ExportToPowerBIExecutor.ts:20-45 | the bar, pie and line value is a number, the item's second field itself when that is a non-zero number |
| ExportToPowerBi.KeyedShape | webextract/lib/workflow/executor/ExportToPowerBIExecutor.ts:16-63 | the keyed arms always give an object |
| ExportToPowerBi.PlainShape | webextract/lib/workflow/executor/ExportToPowerBIExecutor.ts:77-89 | the default arm always gives an object |
| ExportToPowerBi.OptimizeDataForChart | webextract/lib/workflow/executor/ExportToPowerBIExecutor.ts:6-91 | a non-array or empty input gives no records; otherwise one record per item; it fails exactly when a keyed chart meets a null or undefined item |
| ExportToPowerBi.TableItems | webextract/lib/workflow/executor/ExportToPowerBIExecutor.ts:65-73 | table and matrix charts turn a text into `{text}` and keep every other item as it is |
| ExportToPowerBi.PlainItems | webextract/lib/workflow/executor/ExportToPowerBIExecutor.ts:75-89 | the default arm turns a text into `{id, text, value}` numbered i + 1, and gives any other item id i + 1 unless it has its own id, keeping all its fields |
| ExportToPowerBi.SpreadId | webextract/lib/workflow/executor/ExportToPowerBIExecutor.ts:85-88 | `{id, ...item}` reads the item's own field first and the id otherwise |
| ExportToPowerBi.KeyedOwnFieldsWin | webextract/lib/workflow/executor/ExportToPowerBIExecutor.ts:21-61 | in the keyed arms the item's own fields override the computed ones |
| ExportToPowerBi.OwnFieldWins | webextract/lib/workflow/executor/ExportToPowerBIExecutor.ts:21-61 | a field the item has overrides the literal's |
| ExportToPowerBi.BarFields | webextract/lib/workflow/executor/ExportToPowerBIExecutor.ts:13-23 | a bar record's category and value are the computed ones unless the item has its own |
| ExportToPowerBi.LiteralFieldWins | webextract/lib/workflow/executor/ExportToPowerBIExecutor.ts:18-22 | a key the item lacks reads the literal's first field of that name |
| ExportToPowerBi.RowKeys | webextract/lib/workflow/executor/ExportToPowerBIExecutor.ts:102-104 | a row that is not an object contributes no header |
| ExportToPowerBi.KeyLists | webextract/lib/workflow/executor/ExportToPowerBIExecutor.ts:101-105 | one key list per row, in row order |
| ExportToPowerBi.CollectHeaders | webextract/lib/workflow/executor/ExportToPowerBIExecutor.ts:99-107 | the header loop builds the rows' keys in first-appearance order |
| ExportToPowerBi.HeaderStep | webextract/lib/workflow/executor/ExportToPowerBIExecutor.ts:103 | adding a key to the set appends it only when it is new |
| ExportToPowerBi.RowStep | webextract/lib/workflow/executor/ExportToPowerBIExecutor.ts:101-105 | each row's keys are added after the earlier rows' keys |
| ExportToPowerBi.CsvCell | webextract/lib/workflow/executor/ExportToPowerBIExecutor.ts:114-126 | a falsy value is an empty cell, an object or array is its JSON text, a text needing quotes becomes a cell that reads back as that text |
| ExportToPowerBi.CsvLine | webextract/lib/workflow/executor/ExportToPowerBIExecutor.ts:112-128 | a data line fails exactly when the row is null or undefined and there is a header |
| ExportToPowerBi.CsvLines | webextract/lib/workflow/executor/ExportToPowerBIExecutor.ts:110-129 | success gives one line per row, each that row's line; failure means some row's line fails |
| ExportToPowerBi.CsvOf | webextract/lib/workflow/executor/ExportToPowerBIExecutor.ts:94-97 | no rows gives the empty CSV |
| ExportToPowerBi.ConvertToCsv | webextract/lib/workflow/executor/ExportToPowerBIExecutor.ts:94-132 | the conversion builds the header from the loop and the lines, as the CSV definition says |
| ExportToPowerBi.HeaderColumns | webextract/lib/workflow/executor/ExportToPowerBIExecutor.ts:99-107 | the header holds exactly the keys some object row has, each once, with earlier rows' keys first |
| ExportToPowerBi.ListsHaveKey | webextract/lib/workflow/executor/ExportToPowerBIExecutor.ts:101-105 | a key is in some row's list exactly when some row has it |
| ExportToPowerBi.CleanCell | webextract/lib/workflow/executor/ExportToPowerBIExecutor.ts:256-260 | a cleaned cell holds no double quote |
| ExportToPowerBi.CleanCells | webextract/lib/workflow/executor/ExportToPowerBIExecutor.ts:256-260 | each piece of the split line is cleaned, the count kept |
| ExportToPowerBi.Cells | webextract/lib/workflow/executor/ExportToPowerBIExecutor.ts:262-264 | each header is paired, in order, with the cell at its position or '' past the end of the line |
| ExportToPowerBi.DelimitedRecords | webextract/lib/workflow/executor/ExportToPowerBIExecutor.ts:259-266 | one record per data line, in order |
| ExportToPowerBi.TextLines | webextract/lib/workflow/executor/ExportToPowerBIExecutor.ts:269-273 | one record per plain line, in order |
| ExportToPowerBi.TextDataRecords | webextract/lib/workflow/executor/ExportToPowerBIExecutor.ts:243-277 | blank text gives undefined; otherwise one record per line after a CSV or TSV header line, or one `{id, text, value}` record per plain line numbered from 1 |
| ExportToPowerBi.LinesDataRecords | webextract/lib/workflow/executor/ExportToPowerBIExecutor.ts:249-276 | the same, stated for the non-blank lines |
| ExportToPowerBi.PutAllDistinct | webextract/lib/workflow/executor/ExportToPowerBIExecutor.ts:262-264 | assigning distinct keys in turn leaves each key reading its own value |
| ExportToPowerBi.DelimitedField | webextract/lib/workflow/executor/ExportToPowerBIExecutor.ts:259-266 | with distinct headers, each header of a CSV or TSV record reads the cleaned cell at its position, or '' when the line is shorter |
| ExportToPowerBi.CellField | webextract/lib/workflow/executor/ExportToPowerBIExecutor.ts:262-264 | with distinct headers each header reads the value at its position |
| ExportToPowerBi.ParsedData | webextract/lib/workflow/executor/ExportToPowerBIExecutor.ts:238-284 | the parsed data is always an array, a parsed non-array wrapped as the only element |
| ExportToPowerBi.ExportToPowerBiStep | webextract/lib/workflow/executor/ExportToPowerBIExecutor.ts:212-356 | the step's result is the run's, and the store gains exactly the CSV under the file id on success and is unchanged on failure |
| ExportToPowerBi.ObjectsNeverThrow | webextract/lib/workflow/executor/ExportToPowerBIExecutor.ts:110-131 | CSV conversion of object rows never throws |
| ExportToPowerBi.RunOutcome | webextract/lib/workflow/executor/ExportToPowerBIExecutor.ts:288-335 | with both inputs present the step succeeds exactly when reshaping the records succeeds |
| ExportToPowerBi.Guards | webextract/lib/workflow/executor/ExportToPowerBIExecutor.ts:219-229 | a missing Data fails first with its message, then a missing Chart Type |
| ExportToPdf.EscapeHtml | webextract/lib/workflow/executor/ExportToPDFExecutor.ts:7-12 | the escaped text holds no raw `>` |
| ExportToPdf.Escaped | webextract/lib/workflow/executor/ExportToPDFExecutor.ts:7-12 | the character-wise escape holds no raw `<` or `>` |
| ExportToPdf.ReplaceCharConcat | webextract/lib/workflow/executor/ExportToPDFExecutor.ts:9-11 | a global character replacement distributes over concatenation |
| ExportToPdf.ReplaceCharAbsent | webextract/lib/workflow/executor/ExportToPDFExecutor.ts:9-11 | replacing a character the text lacks leaves it as it is |
| ExportToPdf.EscapeHtmlCharwise | webextract/lib/workflow/executor/ExportToPDFExecutor.ts:7-12 | replacing `&` first makes the three replacements act on each character on its own |
| ExportToPdf.UnescapeEscaped | webextract/lib/workflow/executor/ExportToPDFExecutor.ts:7-12 | decoding the three entities gives the escaped text back |
| ExportToPdf.UnescapeHead | webextract/lib/workflow/executor/ExportToPDFExecutor.ts:7-12 | decoding an escaped character gives that character and goes on after it |
| ExportToPdf.UnescapeAmp | webextract/lib/workflow/executor/ExportToPDFExecutor.ts:9 | `&amp;` decodes to `&` |
| ExportToPdf.UnescapeLt | webextract/lib/workflow/executor/ExportToPDFExecutor.ts:10 | `&lt;` decodes to `<` |
| ExportToPdf.UnescapeGt | webextract/lib/workflow/executor/ExportToPDFExecutor.ts:11 | `&gt;` decodes to `>` |
| ExportToPdf.UnescapePlain | webextract/lib/workflow/executor/ExportToPDFExecutor.ts:7-12 | a character other than `&` decodes to itself |
| ExportToPdf.EscapeHtmlSpec | webextract/lib/workflow/executor/ExportToPDFExecutor.ts:7-12 | the escaped text holds no raw `<` or `>`, decodes back to the input, and every other character passes unchanged |
| ExportToPdf.StripLeadingPipe | webextract/lib/workflow/executor/ExportToPDFExecutor.ts:44 | stripping a leading pipe never lengthens the line |
| ExportToPdf.StripTrailingPipe | webextract/lib/workflow/executor/ExportToPDFExecutor.ts:45 | stripping a trailing pipe never lengthens the line |
| ExportToPdf.ParseRow | webextract/lib/workflow/executor/ExportToPDFExecutor.ts:43-47 | a parsed row has at least one cell, and no cell holds a pipe or surrounding whitespace |
| ExportToPdf.TrimInside | webextract/lib/workflow/executor/ExportToPDFExecutor.ts:47 | trimming keeps only characters of the text |
| ExportToPdf.TrimIsEndOfStart | webextract/lib/workflow/executor/ExportToPDFExecutor.ts:47 | trimming is trimming the start and then the end |
| ExportToPdf.ParseTableSpec | webextract/lib/workflow/executor/ExportToPDFExecutor.ts:36-51 | a block is a table exactly when it has a second line that is a separator row; the header cells come from the first line and there is one row per later line, in order, no cell holding a pipe or surrounding whitespace |
| ExportToPdf.TableOfLinesSpec | webextract/lib/workflow/executor/ExportToPDFExecutor.ts:37-49 | the same, stated for the block's lines |
| ExportToPdf.RowsHtmlAppend | webextract/lib/workflow/executor/ExportToPDFExecutor.ts:50 | the table body holds one `<tr>` row per body line, in line order |
| ExportToPdf.DigitRun | webextract/lib/workflow/executor/ExportToPDFExecutor.ts:65-68 | the run is a prefix of ASCII digits that ends at a non-digit or at the end |
| ExportToPdf.LiTag | webextract/lib/workflow/executor/ExportToPDFExecutor.ts:65-70 | a recognised `<li value="n">` tag fits in the text and is longer than its fixed parts |
| ExportToPdf.DigitRunOf | webextract/lib/workflow/executor/ExportToPDFExecutor.ts:65-68 | the digit run of digits followed by a non-digit is exactly those digits |
| ExportToPdf.NumberedItem | webextract/lib/workflow/executor/ExportToPDFExecutor.ts:32-70 | an item the markdown pass numbered n starts the list at n and loses its number |
| ExportToPdf.NoNumbersUnchanged | webextract/lib/workflow/executor/ExportToPDFExecutor.ts:70 | text without a numbered item is left as it is |
| ExportToPdf.DropNewlines | webextract/lib/workflow/executor/ExportToPDFExecutor.ts:54 | the remainder is a suffix of the text that does not start with a newline |
| ExportToPdf.Blocks | webextract/lib/workflow/executor/ExportToPDFExecutor.ts:54 | the split on blank lines yields at least one block |
| ExportToPdf.BlocksHaveNoBlankLine | webextract/lib/workflow/executor/ExportToPDFExecutor.ts:54 | no block of the split holds a blank line |
| ExportToPdf.AllNoBlankLine | webextract/lib/workflow/executor/ExportToPDFExecutor.ts:54 | a block without blank lines in front of such blocks keeps the property |
| ExportToPdf.ExtendNoBlankLine | webextract/lib/workflow/executor/ExportToPDFExecutor.ts:54 | adding a character keeps a block free of blank lines unless it doubles a final newline |
| ExportToPdf.SingleBlock | webextract/lib/workflow/executor/ExportToPDFExecutor.ts:54 | text without a blank line is a single block |
| ExportToPdf.NonEmptyAppend | webextract/lib/workflow/executor/ExportToPDFExecutor.ts:56-61 | appending to a non-empty text keeps it non-empty |
| ExportToPdf.ParagraphHtml | webextract/lib/workflow/executor/ExportToPDFExecutor.ts:78 | a paragraph holds no newline and is never empty |
| ExportToPdf.RenderBlock | webextract/lib/workflow/executor/ExportToPDFExecutor.ts:55-79 | a block renders to nothing exactly when it is blank |
| ExportToPdf.Paragraph | webextract/lib/workflow/executor/ExportToPDFExecutor.ts:75-78 | a block that is not a table, a list or a block element becomes a paragraph of the trimmed text with each newline turned into `<br/>`, holding no newline |
| ExportToPdf.ListBlock | webextract/lib/workflow/executor/ExportToPDFExecutor.ts:63-73 | a list block without a numbered item becomes `<ul>`; with one, an `<ol>` starting at the first number with the numbers stripped |
| ExportToPdf.ContentHtml | webextract/lib/workflow/executor/ExportToPDFExecutor.ts:95-99 | content that holds a tag is used as it is; anything else is the rendered markdown |
| ExportToPdf.FileBase | webextract/lib/workflow/executor/ExportToPDFExecutor.ts:89-90 | the file base is the trimmed File Name when that is not empty, `ai-document-<now>` otherwise |
| ExportToPdf.PdfRun | webextract/lib/workflow/executor/ExportToPDFExecutor.ts:84-217 | the step succeeds exactly when printing the page succeeds |
| ExportToPdf.ExportToPdfStep | webextract/lib/workflow/executor/ExportToPDFExecutor.ts:84-217 | the step's result is the run's; on success the store gains the base64 text as `<file base>.pdf` under the file id, and is unchanged on failure |
| GenerateDocument.FindCi | webextract/lib/workflow/executor/GenerateDocumentExecutor.ts:10-11 | the position found is the first where the closing tag starts, case-insensitively; none means it starts nowhere |
| GenerateDocument.HeadOf | webextract/lib/workflow/executor/GenerateDocumentExecutor.ts:10-11 | the text opens with a block exactly when it starts with the opening tag, and a block never runs past the text |
| GenerateDocument.RemoveBlocks | webextract/lib/workflow/executor/GenerateDocumentExecutor.ts:10-11 | removing script or style blocks never lengthens the text |
| GenerateDocument.RemoveBlocksNoOpen | webextract/lib/workflow/executor/GenerateDocumentExecutor.ts:10-11 | text without an opening tag passes through unchanged |
| GenerateDocument.OpensWith | webextract/lib/workflow/executor/GenerateDocumentExecutor.ts:10-11 | a text made of the lower-case opening tag and a rest starts with that tag |
| GenerateDocument.LeadingHead | webextract/lib/workflow/executor/GenerateDocumentExecutor.ts:10-11 | a leading block runs to the end of the first closing tag after the opening one (the lazy match) |
| GenerateDocument.HeadIsBlock | webextract/lib/workflow/executor/GenerateDocumentExecutor.ts:10-11 | the same, for any casing of the opening tag |
| GenerateDocument.RemoveLeadingBlock | webextract/lib/workflow/executor/GenerateDocumentExecutor.ts:10-11 | a leading block is dropped and the scan goes on after it |
| GenerateDocument.SkipBlock | webextract/lib/workflow/executor/GenerateDocumentExecutor.ts:10-11 | the scan resumes right after the first closing tag |
| GenerateDocument.Regroup | webextract/lib/workflow/executor/GenerateDocumentExecutor.ts:10-11 | the text after a block is what follows its closing tag |
| GenerateDocument.DropHead | webextract/lib/workflow/executor/GenerateDocumentExecutor.ts:10-11 | a leading block is removed and the rest scanned |
| GenerateDocument.TagLength | webextract/lib/workflow/executor/GenerateDocumentExecutor.ts:12 | a tag is matched exactly when the text starts with `<`, a character other than `>`, and has a later `>`; it is at least three characters |
| GenerateDocument.HtmlLikeCons | webextract/lib/workflow/executor/GenerateDocumentExecutor.ts:12 | a text holds a tag exactly when one starts at its first character or its rest holds one |
| GenerateDocument.HtmlLikeWithin | webextract/lib/workflow/executor/GenerateDocumentExecutor.ts:12 | a tag inside a slice is a tag of the text |
| GenerateDocument.ReplaceTagsNoGt | webextract/lib/workflow/executor/GenerateDocumentExecutor.ts:12 | replacing tags adds no `>` |
| GenerateDocument.NoTagAfterReplace | webextract/lib/workflow/executor/GenerateDocumentExecutor.ts:12 | after the tag pass no tag is left |
| GenerateDocument.CollapseSpaces | webextract/lib/workflow/executor/GenerateDocumentExecutor.ts:13 | collapsing whitespace keeps emptiness and the first non-space character, leaves only plain spaces and never two in a row |
| GenerateDocument.CollapseNoGt | webextract/lib/workflow/executor/GenerateDocumentExecutor.ts:13 | collapsing whitespace adds no `>` |
| GenerateDocument.CollapseRestGt | webextract/lib/workflow/executor/GenerateDocumentExecutor.ts:13 | collapsing whitespace moves no `>` to after the first character |
| GenerateDocument.CollapseNoNewTag | webextract/lib/workflow/executor/GenerateDocumentExecutor.ts:13 | collapsing whitespace makes no tag |
| GenerateDocument.StripHtmlText | webextract/lib/workflow/executor/GenerateDocumentExecutor.ts:9-14 | the stripped text holds no tag, no whitespace at either end, only plain spaces and no two in a row |
| GenerateDocument.TrimKeepsSpacing | webextract/lib/workflow/executor/GenerateDocumentExecutor.ts:13 | trimming keeps the text free of tags and of irregular whitespace |
| GenerateDocument.SliceKeepsSpacing | webextract/lib/workflow/executor/GenerateDocumentExecutor.ts:24-26 | a slice of such a text is free of them too |
| GenerateDocument.EstimateAstral | webextract/lib/workflow/executor/GenerateDocumentExecutor.ts:16-18 | a character outside the Basic Multilingual Plane weighs two code units in the estimate |
| GenerateDocument.EstimateTokens | webextract/lib/workflow/executor/GenerateDocumentExecutor.ts:16-18 | the estimate is the length in UTF-16 code units divided by four, rounded up |
| GenerateDocument.SliceTo | webextract/lib/workflow/executor/GenerateDocumentExecutor.ts:24 | `slice(0, end)` gives a prefix of the code units |
| GenerateDocument.SliceFrom | webextract/lib/workflow/executor/GenerateDocumentExecutor.ts:25 | `slice(start)` gives a suffix of the code units |
| GenerateDocument.MiddleOutTruncateAsWritten | webextract/lib/workflow/executor/GenerateDocumentExecutor.ts:20-27 | text within the target, in code units, is returned as it is |
| GenerateDocument.MarkerUnits | webextract/lib/workflow/executor/GenerateDocumentExecutor.ts:26 | the truncation marker is 35 code units, one per character of the marker text |
| GenerateDocument.MarkerIsUtf16 | webextract/lib/workflow/executor/GenerateDocumentExecutor.ts:26 | the marker's units are exactly the UTF-16 encoding of the marker text |
| GenerateDocument.AsWrittenRepeatsText | webextract/lib/workflow/executor/GenerateDocumentExecutor.ts:20-27 | at a target of 160 the tail size is 0 and `slice(-0)` is the whole text, so the result repeats the head and is longer than the text |
| GenerateDocument.MiddleOutTruncate | webextract/lib/workflow/executor/GenerateDocumentExecutor.ts:20-27 | text within the target is kept; longer text becomes a prefix of its code units, the marker and a disjoint suffix |
| GenerateDocument.MiddleOutTruncateSize | webextract/lib/workflow/executor/GenerateDocumentExecutor.ts:20-27 | from a target of 160 up the result is 29 code units under the target; below it, the head and the marker |
| GenerateDocument.AsWrittenAgrees | webextract/lib/workflow/executor/GenerateDocumentExecutor.ts:20-27 | for targets above 160 the source's truncation and the corrected one agree |
| GenerateDocument.CompressContentData | webextract/lib/workflow/executor/GenerateDocumentExecutor.ts:29-39 | the stripped text's code units are kept when their estimate fits the budget, and cut in the middle to min(length, 4·max − 8000) units otherwise; both estimates are reported |
| GenerateDocument.CompressFits | webextract/lib/workflow/executor/GenerateDocumentExecutor.ts:29-83 | with a budget of at least 2041 tokens the compressed content fits it, and the source's own truncation gives the same text |
| GenerateDocument.SpaceDashRun | webextract/lib/workflow/executor/GenerateDocumentExecutor.ts:56 | the run is a prefix of whitespace and dashes |
| GenerateDocument.Underscore | webextract/lib/workflow/executor/GenerateDocumentExecutor.ts:56 | after the replacement no whitespace or dash is left, and lower-case text stays lower-case |
| GenerateDocument.UnderscorePlain | webextract/lib/workflow/executor/GenerateDocumentExecutor.ts:56 | text without whitespace or dashes is unchanged |
| GenerateDocument.TrimKeepsLower | webextract/lib/workflow/executor/GenerateDocumentExecutor.ts:56 | trimming keeps a text lower-case |
| GenerateDocument.SynonymKey | webextract/lib/workflow/executor/GenerateDocumentExecutor.ts:57-70 | "summary" and "thesis" are mapped to their keys and every other value is kept |
| GenerateDocument.NormalizeDocumentTypeKey | webextract/lib/workflow/executor/GenerateDocumentExecutor.ts:55-71 | a normalised key is lower-case, holds no whitespace or dash and is never a synonym |
| GenerateDocument.LowerCharIdempotent | webextract/lib/workflow/executor/GenerateDocumentExecutor.ts:56 | lower-casing gives a lower-case text |
| GenerateDocument.NormalizeIdempotent | webextract/lib/workflow/executor/GenerateDocumentExecutor.ts:55-71 | normalising a normalised key changes nothing |
| GenerateDocument.NormalizedIsFixed | webextract/lib/workflow/executor/GenerateDocumentExecutor.ts:55-71 | every key of the normalised shape is its own normalisation |
| GenerateDocument.TemplateFor | webextract/lib/workflow/executor/GenerateDocumentExecutor.ts:108-135 | each of the four types gets its own template, `constructor` and `__proto__` get the inherited member whose fields print as `undefined`, and any other type gets the research paper's |
| GenerateDocument.InheritedTypesReachTemplate | webextract/lib/workflow/executor/GenerateDocumentExecutor.ts:133-135 | a document type of `constructor` or `__proto__` survives normalisation and reaches the inherited member |
| GenerateDocument.UserPrompt | webextract/lib/workflow/executor/GenerateDocumentExecutor.ts:169 | the user message ends with the compressed content |
| GenerateDocument.Thrown | webextract/lib/workflow/executor/GenerateDocumentExecutor.ts:193-196 | a thrown error ends the step with no outputs and two error logs, the heading and the message |
| GenerateDocument.Request | webextract/lib/workflow/executor/GenerateDocumentExecutor.ts:73-83 | the request carries the compressed content and the template of its document type (templates at lines 133-174) |
| GenerateDocument.GenerateDocumentGuards | webextract/lib/workflow/executor/GenerateDocumentExecutor.ts:48-99 | a missing Content Data fails first, then missing Credentials, then an unknown credential |
| GenerateDocument.GenerateDocumentOutcome | webextract/lib/workflow/executor/GenerateDocumentExecutor.ts:41-198 | the step succeeds exactly when the credential decrypts to a non-empty key and the model answers with non-empty content, the one output Generated Document; every failure leaves no output and an error |

## Left out

- The execution engine and the execution-plan builder (`executeWorkflow`, `useExecutionPlan`) are not part of this model. The execute route takes the plan and the engine's outcome as parameters.
- UI rendering and React state (canvas, chat panels, dialogs, buttons) are left out. So are the editor's `onDrop` handler and the effect that loads a saved flow, which only forward to React Flow.
- Network and AI clients, the database, Stripe and the credential helpers are left out. What the steps get back from them (credentials, decryption, search responses, chat completions) is a parameter.
- Browser automation is reduced to parameters that report success, content or the thrown message: the puppeteer launch, `goto`, `content`, waits, clicks, `page.pdf` and the LaTeX waits. Page timings and the database keep-alive interval are left out.
- Concurrency and timers are left out: `Promise.all` page loads, the 30-second SSE heartbeat, the 24-hour `setTimeout` deletion in the file store (expiry is modelled through `getFile` only), and the unawaited `onLog` promise.
- Randomness and clocks are parameters: `Math.random`, `Date.now`, `new Date()`, `crypto.randomUUID` and the generated file ids. The PDF and Power BI exports take one clock reading for both the file name and `createdAt`, where the source reads the clock twice, a few milliseconds apart.
- Floating-point values are kept as integer hundredths (detection confidences) or as integers (chart values). Power BI's random quality score and moving average are parameters.
- Foreign primitives are parameters: `JSON.parse` and `JSON.stringify`, `new URL`, `encodeURIComponent`, `timingSafeEqual` on bytes (modelled on characters), `parseInt`, `Number` on texts, date formatting and the store's null ordering in `orderBy … desc`.
- Most regular expressions are parameters. The model writes out the URL pattern, the table-separator pattern, the tag and whitespace patterns, the list and block-element tests of the PDF block pass, and the script and style block removal. The markdown rewrites before the PDF block pass (code spans, emphasis, headings, rules, list items) are the `rewrite` parameter.
- Regular-expression case-insensitivity and `toLowerCase` cover ASCII letters only.
- Strings are sequences of code points. `length` (in `Json.Get`, the workflow schema's bounds and the document step's token estimate and truncation) counts UTF-16 code units, as the source does. The other string operations of the model (trimming, splitting and searching on ASCII separators, ASCII pattern replacement) give the same text on either reading.
- Json.Get: indexing a string (`s[i]`) counts code points, not UTF-16 code units. The two agree on text within the Basic Multilingual Plane; a lone surrogate has no code-point form.
- Json.Value: numbers are integers (`JNum(int)`) everywhere, so fractional values are left out: node positions (the sort keys of `WorkflowAi.GenerateAutoEdges`, `WorkflowDetails.FlowPath` and the layout of `WorkflowLayout`), credit costs, property values read by `ReadProperty.ReadPropertyFromJson`, chart and cell values in the CSV and Power BI exports, and `String(n)` of a non-integer.
- Common.TypeErrorMessage: every error the JavaScript engine raises (reading a property of `undefined` or `null`, calling something that is not a function) carries the one message "TypeError". The engine's own wording, such as "TypeError: pagesData.map is not a function", is left out. This changes the logged text of `PageToHtml.PageToHtmlOutcome` ("Error parsing pages data: TypeError"), `ResearchAssistant.Thrown` and `ResearchAssistant.ResearchOutcome`, the error logs of the CSV, Power BI and click steps, and the errors thrown by `WorkflowAi`, `WorkflowValidation` and `WorkflowDetails`.
- WorkflowAi.Coordinate: a position coordinate that is not a number reads as 0. The source's comparator subtracts the raw values: a numeric string or a boolean is coerced, and `undefined` or a non-numeric string gives `NaN`, for which the comparator is inconsistent and the engine's order is not defined. So the order is modelled only for numeric positions.
- WorkflowAi.GenerateAutoEdges: the (y, x) order, and so the chain, is the one over `WorkflowAi.Coordinate`; it agrees with the source only when every position's `x` and `y` are numbers.
- WorkflowAi.AutoEdgesSpec: the stated (y, x) order is over `WorkflowAi.Coordinate`, the source's only when every coordinate is a number.
- WorkflowDetails.FlowPathSpec: the same holds for the flow path; a missing node or position is modelled (the TypeError), a non-numeric coordinate is not.
- ReadProperty.ReadPropertyFromJson: `propertyName in json` also finds names inherited from `Object.prototype` (`toString`, `constructor`, `__proto__`, ...) and, on an array, from `Array.prototype` (`map`, `push`, ...). The model looks up own properties only, so for such a name it fails with "not found" where the source outputs the inherited function or prototype; a JSON value has no function to output.
- ReadProperty.ReadPropertyOutcome: the success condition is stated over own properties, so it does not hold of the source for inherited names, as above.
- Environment.Environment.GetPhase: the phase store is an object literal, so a key never set that names an `Object.prototype` member (`toString`, `constructor`, ...) reads that member, not `undefined`. The model returns `undefined` for every key never set.
- Environment.Environment.SetPhase: setting `__proto__` replaces the store's prototype (an object) or is ignored (a primitive), rather than storing a value under that key. The model stores it like any other key.
- GenerateDocument.CompressContentData: truncates with the corrected `GenerateDocument.MiddleOutTruncate`. For a budget of 2040 tokens or less the source's `compressContentData` can produce a different text (the repeated text of the finding below). The step always passes 100000 tokens, where `GenerateDocument.CompressFits` proves that both give the same text.
- JavaScript's rule that integer-like object keys come first in key order is left out. Object keys keep plain insertion order.
- The descriptors of the ten task types whose files are not part of this model are the `unseen` parameter of the catalog lookups.
- The list of log levels (`LogLevels`) is not part of this model; the log collector takes it as a constructor argument.
- The execute route's label lookup for a node's task type is the `Labels` function.
- `parseStreamingWorkflow` (the incremental parser used while a reply streams in) is not modelled. Only the streaming guard of `parseAIWorkflow` is.
- Informational logs (`log.info`, `log.success`) carry timings and sizes and are not part of a step's `Run`. Error logs are.
- The ws route's POST answer 500 for an unreadable request body is left out.
- `ExportToPowerBIExecutor_backup.ts` and the executor dispatch table `executor/Registry.ts` are not part of this model.
- The Power BI template text (`generatePowerBITemplate`) is a parameter. Only the chart type, record count and file name it is given are modelled.

## Findings

| source | as written | input that shows it | evidently intended | confidence | as-written member | corrected member |
|---|---|---|---|---|---|---|
| webextract/lib/workflow/executor/GenerateDocumentExecutor.ts:20-27 | `middleOutTruncate` takes the tail with `text.slice(-tailSize)`. When `tailSize` is 0 (a target of 160), `slice(-0)` is `slice(0)`, the whole text. | any text longer than 160 code units, with a target of 160: the result is its first 96 units, the marker, then the whole text, so it is longer than the input | an empty tail, so that the result is shorter than the text: the head and the marker | not executed | GenerateDocument.AsWrittenRepeatsText | GenerateDocument.MiddleOutTruncateSize |

Through `compressContentData` the step only reaches targets of at least
`4·100000 − 8000`, so the step itself never hits this input.
`GenerateDocument.CompressFits` proves that there the source's truncation and
the corrected one agree. The defect is in the helper.
