# A verified model of the bunshin-go workflow library

The library runs LLM workflows: it compiles agents and workflow specs to graphs, executes the graphs,
and keeps prompts, messages, checkpoints and specs in stores that several goroutines or processes
share. This project models those parts and proves what they guarantee, for every input, every run and
every interleaving. Nothing here was executed; everything is checked by the Dafny verifier
(`dafny verify dfyconfig.toml`).

## How it is laid out

| files | what they model |
|---|---|
| `Digraph`, `KahnSort`, `CycleFinder`, `AgentResolver` | compile-time resolution of the agents an agent delegates to: breadth-first closure, Kahn's algorithm with in-degree counters, depth-first extraction of the cycle to report |
| `AgentLoop` | the llm/tools loop of a compiled agent and its nested delegation, under arbitrary model answers, tool answers and cancellation |
| `GraphExec`, `Chain`, `Workflow`, `StaticRouting` | the graph executor, the sequential chain, validation and compilation of workflow specs, runs of specs without routers |
| `EipRouters` | routing slip, recipient list, splitter and aggregator: routers that keep a position in the state and turn a cyclic graph into an iteration |
| `JobSearch` | the cyclic example graph with two bounded loops |
| `BudgetTracker`, `Checkpointer`, `EvalRunner`, `PromptCache`, `PromptKeys` | the concurrent protocols, as state machines over their atomic steps |
| `WorkflowStore`, `StoreAgreement`, `Text` | the in-memory and the flat-key spec stores, and when they answer alike |
| `TokenWindow`, `MinioStore`, `Decimals` | message stores, token windows, zero-padded object keys |
| `VectorStore` | cosine similarity and top-k search |
| `Sequences`, `Wrappers` | what several models share |

Code that changes things step by step is a method or a class here, proved against a specification
function; the properties are lemmas about those functions. Concurrent code is a function from a world
and one atomic action to the next world; a theorem about every interleaving is a lemma about every
sequence of actions. Runnables, model answers, tool answers, critics, clocks and cancellation are
oracles: function parameters about which nothing is assumed, usually indexed by a tick so that two
consultations may differ.

## What turned out not to hold as written down

The model follows the code in each case, and the table says exactly when the property does hold.

- ADR 0006 says that resolution fails if and only if a reference cycle exists. An agent that is in its
  own list is resolved from the registry like any other agent, and the registry's list then replaces
  the one being compiled: `AgentResolver.ReportsDeclaredCycles`, `AgentResolver.StaleSelfListingAccepted`.
- The iteration counter of an agent lives in the compile closure and is never reset, so `maxIterations`
  bounds the turns of all invocations together, but for one turn granted to each that fails or finds the
  cap used up: `AgentLoop.TurnsTogether`, `AgentLoop.AgentRuntime.InvokeInTurn`.
- Of several tool calls in one model answer only the last is executed: `AgentLoop.OnlyLastCallPending`.
- A linear spec means its chain exactly when no node is named `__end__`:
  `Workflow.LinearMeansChainIffNoSentinel`.
- A routing slip or splitter loses its list at its first stop exactly when it writes the key it reads it
  from. The slip then fails; the splitter fails, unless the item was itself a list, which it goes on with:
  `EipRouters.SharedKeyLosesPlan`, `EipRouters.SharedKeySlipFails`, `EipRouters.SharedKeySplitterGoesOn`.
- ADR 0003 describes the aggregator as collecting the outputs of a splitter or recipient list into one
  slice. While it waits for more items it ends the run, so it collects all that is due exactly when only
  one item is, or when it hands back to the router node and its expected number, possibly one, is reached
  with the first item: `EipRouters.AggregationExact`.
- A refused charge leaves the token budget untouched. Real use passes the budget by exactly what is owed
  and refused beyond what remains, so it stays within it exactly when no charge is refused:
  `BudgetTracker.UseExceedsBudgetBy`, `BudgetTracker.BudgetHoldsIffNothingRefused`.
- After a checkpoint row is deleted, a node that loaded before can overwrite a row it never saw, exactly
  when the thread is free or its row has not yet passed the version that the node holds; a node that
  loaded since cannot: `Checkpointer.OverwriteUnseenIffAtRisk`, `Checkpointer.FreshSaveReplacesItsBase`.
- A message store that restarts without `Restore` loses messages exactly when it appends while its counter
  stands below the highest number written: `MinioStore.AppendOverwritesIff`, `MinioStore.MessagesKeptIff`.
- A token window is the longest suffix that fits, for all conversations, exactly for counters whose costs
  do not have both signs: `TokenWindow.LongestFitIffOneSign`.
- Two tenants can share a Redis key, and two workflows all their bucket keys:
  `PromptKeys.KeysOwnIffSeparable`, `PromptKeys.TenantsShareKeyIff`, `BlobStore.KeysSharedIffSlash`.
- The two spec stores answer a read of the active version differently exactly when a delete made the one
  forget a version that the other still points at: `StoreAgreement.StoresAgree`.
- `pkg/workflow/interfaces.go:43` promises versions newest first; both stores list them oldest first, which
  is the same exactly for workflows with at most one version: `StoreAgreement.NewestFirstIffOne`.

## Model

| member | source | states |
|---|---|---|
| `KahnSort.CountInDegrees` | pkg/agent/compiler.go:209-220 | after the counting loops each counter equals the number of edges into its node, repetitions included |
| `KahnSort.PositiveBefore` | pkg/agent/compiler.go:229-238 | a counter about to be decremented is at least one, so no counter becomes negative and each node is enqueued once |
| `KahnSort.EnqueueStep` | pkg/agent/compiler.go:232-237 | enqueuing a node when its counter drops to zero keeps the queue history equal to the nodes at zero, without repetition |
| `KahnSort.Release` | pkg/agent/compiler.go:229-238 | one round of the queue loop keeps the counters balanced against the sorted nodes and the enqueued nodes exactly those at zero |
| `KahnSort.CompleteOrderMeansAcyclic` | pkg/agent/compiler.go:240-242 | an order as long as the node list proves that no cycle can be reached, even if a name is listed twice |
| `KahnSort.IncompleteOrderMeansCycle` | pkg/agent/compiler.go:240-244 | for distinct nodes, if some are left over then a cycle exists, since each has a left-over predecessor |
| `KahnSort.KahnOrder` | pkg/agent/compiler.go:208-245 | the processed nodes come in topological order, and for distinct nodes they are fewer than all exactly when a cycle can be reached |
| `CycleFinder.Push` | pkg/agent/compiler.go:255-258 | entering a node keeps the stack a simple path and every visited node either on it or finished |
| `CycleFinder.Pop` | pkg/agent/compiler.go:280-283 | leaving a node all of whose successors are finished keeps the finished nodes in successors-first order |
| `CycleFinder.CloseStack` | pkg/agent/compiler.go:263-277 | cutting the stack at the node met again gives a closed path on which no other node repeats |
| `CycleFinder.CycleSearch.Dfs` | pkg/agent/compiler.go:255-284 | a call that finds nothing leaves the stack as it was and its node finished; one that succeeds leaves a simple cycle reachable from where it started |
| `CycleFinder.FindCycle` | pkg/agent/compiler.go:249-296 | terminates, and returns a path exactly when a cycle is reachable; the path is a simple closed cycle reachable from a listed node |
| `AgentResolver.KahnTopologicalSort` | pkg/agent/compiler.go:208-245 | for edges that stay in the node list, reports a simple reachable cycle if and only if there is one |
| `AgentResolver.EnqueueNew` | pkg/agent/compiler.go:183-189 | enqueues exactly the unseen names, so that unseen names plus queue length does not grow |
| `AgentResolver.Explore` | pkg/agent/compiler.go:158-190 | the closure terminates; it stops at a needed name that is unknown, or its agents are exactly the needed names |
| `AgentResolver.ClosureComplete` | pkg/agent/compiler.go:165-190 | when the queue is empty, the agents are exactly the names reachable below the parent |
| `AgentResolver.HandedOver` | pkg/agent/compiler.go:160-196 | the edge map handed to Kahn's algorithm is closed in its node list and agrees there with the dependency graph |
| `AgentResolver.HandedBack` | pkg/agent/compiler.go:192-203 | a verdict about the handed-over map is a verdict about the whole dependency graph below the parent |
| `AgentResolver.ResolveAgents` | pkg/agent/compiler.go:145-204 | not-found exactly if a needed name is unknown; otherwise a simple reachable cycle exactly if the dependency graph has one below the parent; otherwise exactly the needed agents |
| `AgentResolver.ReportsDeclaredCycles` | pkg/agent/compiler.go:145-204 | resolution agrees with the declared graph about cycles exactly when the parent is not in its own list or the registered agents already form a cycle |
| `AgentResolver.StaleSelfListingAccepted` | pkg/agent/compiler.go:160-190 | an agent listing itself is accepted when the resolver holds an older version of it that does not |
| `AgentLoop.OnlyLastCallPending` | pkg/agent/compiler.go:397-437 | of the tool calls in one model answer exactly the last is pending for the tools node |
| `AgentLoop.ReplyKeepsAnswer` | pkg/agent/compiler.go:397-413 | the messages appended for a model answer hold its text first and then all its tool calls, in order |
| `AgentLoop.GoesOnIffCalled` | pkg/agent/compiler.go:579-609 | for every answer, state and step below the cap the run goes on to the tools exactly when the answer has a tool call, and else ends with the state as it is; from the cap on it ends and is flagged |
| `AgentLoop.SubOutputIsLastText` | pkg/agent/compiler.go:562-574 | a caller gets the texts of the last message of the sub-agent, part after part, or its error |
| `AgentLoop.OtherOutputMeans` | pkg/agent/compiler.go:496-512 | a call named after a loaded or an unknown skill, or after nothing known, is answered with the text for that case |
| `AgentLoop.SubStateIsIsolated` | pkg/agent/compiler.go:533-556 | a sub-agent starts one level deeper, on the task of the call, with no messages and with the values of only three envelope keys of its parent |
| `AgentLoop.CreditIsProduct` | pkg/agent/compiler.go:516-574 | the recursive call bound is turns times one plus the bound one level down |
| `AgentLoop.TallyOwnRun` | pkg/agent/compiler.go:353-418 | a model call in a turn that is left keeps the books: own turns within the cap, all calls within the credit |
| `AgentLoop.TallyDeeper` | pkg/agent/compiler.go:423-470 | delegated model calls within the bound, all deeper, keep the books |
| `AgentLoop.TallyBounds` | pkg/agent/compiler.go:579-609 | kept books imply at most max(1, cap - used) own turns and a bounded call tree |
| `AgentLoop.AgentRuntime.LlmNode` | pkg/agent/compiler.go:353-418 | one model consultation appends its text and one message for each tool call, or fails with the state untouched |
| `AgentLoop.AgentRuntime.Router` | pkg/agent/compiler.go:579-609 | counts one step; below the cap it hands to the tools, with the state as it is, if and only if a call of the last message is pending, and at the cap it ends and flags the state |
| `AgentLoop.AgentRuntime.ExecuteToolCall` | pkg/agent/compiler.go:473-512 | a tool wins over an agent and an agent over a skill, with what the tool says, the sub-agent's text or the fixed text; what it costs in model calls is bounded and deeper |
| `AgentLoop.AgentRuntime.InvokeSubAgent` | pkg/agent/compiler.go:516-574 | at depth 8 the caller gets the depth error and no model is asked; below, it gets the text of the last message of the isolated sub-agent run, which is a model answer to what that run showed the model last, or the error it failed with; all model calls are deeper, at most at depth 8, and bounded |
| `AgentLoop.AgentRuntime.ToolsNode` | pkg/agent/compiler.go:423-470 | every pending call is answered, in order, by one tool message with its id and what that call may be answered with; task and envelope stay |
| `AgentLoop.AgentRuntime.LlmTurn` | pkg/agent/compiler.go:353-418 | a turn appends an answer of the model and, below the cap, goes on to the tools exactly when that has a tool call; one that goes on has a step left, and one that ends at the cap is marked truncated |
| `AgentLoop.AgentRuntime.Pass` | pkg/agent/compiler.go:36-119 | one executor pass over the two-node graph keeps the bookkeeping of the invocation |
| `AgentLoop.AgentRuntime.RunLoop` | pkg/agent/compiler.go:36-119 | the loop over the two nodes terminates with the bookkeeping and the conversation kept, or with an error within the bounds |
| `AgentLoop.AgentRuntime.Invoke` | pkg/agent/compiler.go:579-609 | for all answers an invocation terminates; its own llm node runs at most max(1, cap - used) times, and as often as the counter grows unless it fails; every nested call is within depth 8, the whole call tree is bounded, and the history is only extended. The model is shown the input first, and each time after that its own last answer with the last tool call answered; a return ends in a model answer, below the cap in one without a pending call and at the cap flagged; a failure is a cancellation or a failed model call |
| `AgentLoop.TurnsTogether` | pkg/agent/compiler.go:579-609 | over any sequence of invocations, with anything in between, all turns together are at most what was left of the cap plus one for each invocation that failed or found the cap used up |
| `AgentLoop.AgentRuntime.InvokeInTurn` | pkg/agent/compiler.go:579-609 | any number of invocations of one agent, one after the other, make exactly the recorded model calls and keep that bound |
| `GraphExec.Graph.AddNode` | pkg/graph/graph.go:32-38 | registers a node under a fresh id and refuses a duplicate |
| `GraphExec.Graph.Invoke` | pkg/graph/graph.go:49-85 | the step loop computes the run function: same end, same state returned on error, cancellation, unknown node or missing entry |
| `GraphExec.WhyHalted` | pkg/graph/graph.go:57-84 | why an execution halts and with which state: cancelled, unknown node, failed node, failed router, no router, or routed to the end; and where it stands otherwise |
| `GraphExec.RunForSplit` | pkg/graph/graph.go:57-84 | running m and then n executions is running m + n |
| `GraphExec.ResultIsStable` | pkg/graph/graph.go:57-84 | a run that has ended keeps its result |
| `Chain.Invoke` | pkg/chain/chain.go:33-46 | the step loop computes the sequential meaning, with the state of the failing or interrupted step |
| `Workflow.Parse` | pkg/workflow/spec.go:107-132 | accepts exactly the specs with a name, at least one node, typed nodes, distinct non-empty ids and known `next` targets, and else reports the first fault |
| `Workflow.FaultIsOne` | pkg/workflow/spec.go:107-132 | a spec that is not accepted has exactly one first fault: its name, its nodes one by one, then the targets one by one |
| `Workflow.BuildNodes` | pkg/workflow/compiler.go:42-64 | succeeds exactly when all registry entries exist, with one node for each spec node, in order; else it names the first node whose entry is missing, the runnable before the router |
| `Workflow.Compile` | pkg/workflow/compiler.go:22-39 | an accepted spec compiles exactly when all registry entries exist, to exactly its nodes with the first as entry; each node runs its own registry entry and goes by its registered router, to its declared `next`, or to the node after it |
| `Workflow.CompiledAsDeclared` | pkg/workflow/compiler.go:232-260 | every compiled graph runs each node's registry entry and routes by its router, its declared `next` or its position, in that order of precedence |
| `Workflow.DeclaredStep` | pkg/graph/graph.go:57-84 | in the compiled graph a node that succeeds steps to its declared `next`, to the following node, to the end after the last one, or where the registered router sends it |
| `Workflow.LinearFrom` | pkg/workflow/compiler.go:232-260 | from any node on, the graph of a linear spec runs as the rest of the chain |
| `Workflow.LinearSpecRunsAsChain` | pkg/graph/graph.go:49-85 | a linear accepted spec runs, for all runnables, inputs and cancellations, as the chain of its nodes before the first one named like the sentinel: same final state, same failing step, same state on error |
| `Workflow.NoSentinelSameAsChain` | pkg/chain/chain.go:33-46 | without such a node the graph and the whole chain give the same result |
| `Workflow.SentinelNodeDiffers` | pkg/graph/graph.go:57-60 | with such a node some runnables tell the graph and the chain apart |
| `Workflow.LinearMeansChainIffNoSentinel` | pkg/workflow/compiler.go:246-259 | a linear accepted spec means its chain, for all runnables, exactly when no node is named `__end__` |
| `StaticRouting.HopsClosed` | pkg/workflow/spec.go:124-132 | in an accepted spec every successor is a node or the end |
| `StaticRouting.HopsOfFollows` | pkg/workflow/compiler.go:246-259 | an accepted spec has a successor table that follows its own `next` fields and node order |
| `StaticRouting.SameHops` | pkg/workflow/compiler.go:246-259 | there is only one such table |
| `StaticRouting.SomeNodeRepeats` | pkg/graph/graph.go:57-84 | a walk longer than the number of nodes meets a node twice |
| `StaticRouting.RepeatNeverEnds` | pkg/graph/graph.go:57-84 | after a repetition the end is never reached |
| `StaticRouting.StaysOnTrack` | pkg/graph/graph.go:57-84 | under all failures and cancellations the executor stands where the walk stands, or has halted for a stated reason |
| `StaticRouting.NeverUnknownNode` | pkg/graph/graph.go:66-70 | a run of an accepted spec without routers never meets an unknown node or a router error |
| `StaticRouting.EndsSoonOrNever` | pkg/workflow/compiler.go:246-259 | along the walk that the spec's own `next` fields declare: without failures and cancellation the run ends within as many executions as nodes, or repeats a node within them and never ends |
| `EipRouters.SharedState.RoutingSlipRouter` | pkg/graph/router/eip/eip.go:162-190 | the closure, writing the shared maps in place, goes to the stored name at the position, one further each time, ends outside the list and fails on anything but strings; all else is left alone |
| `EipRouters.SharedState.RecipientListRouter` | pkg/graph/router/eip/eip.go:205-231 | the same for the recipient at the position |
| `EipRouters.SharedState.SplitterRouter` | pkg/graph/router/eip/eip.go:248-288 | the same for the splitter: the stored item at the position is written under the output key, before the position |
| `EipRouters.SharedState.AggregatorRouter` | pkg/graph/router/eip/eip.go:306-347 | the same for the aggregator: appends the item, continues only when a positive expected count is reached |
| `EipRouters.RouteFollowsPlan` | pkg/graph/router/eip/eip.go:162-288 | each decision names the next stop of the list, shows its item, advances the position by one and keeps the list, or ends the run outside the list |
| `EipRouters.StringSliceIsStored` | pkg/graph/router/eip/eip.go:432-449 | a stored value reads as a list of strings exactly if it is one, or a list of strings only, and then as those strings in order |
| `EipRouters.AnySliceIsStored` | pkg/graph/router/eip/eip.go:452-471 | a stored list of values, strings or maps reads as its elements in order, and nothing else reads as a list |
| `EipRouters.ToIntMeans` | pkg/graph/router/eip/eip.go:365-377 | a position reads as the integer stored, a float truncated toward zero, and zero for everything else |
| `EipRouters.PlanIsStored` | pkg/graph/router/eip/eip.go:162-288 | what a router iterates over is the stored slip, the recipients it was given or the stored items, from the first to the last |
| `EipRouters.HubStep` | pkg/graph/graph.go:57-84 | the router node's turn hands to the stop that is due, or ends when none is |
| `EipRouters.StopStep` | pkg/graph/graph.go:57-84 | a visited node was the stop that is due, and hands back or on |
| `EipRouters.IterationFollowsPlan` | pkg/graph/graph.go:57-84 | for all runnables that leave list and position alone, and all failures and cancellations, the stops made are a prefix of the list in order, and all of it when the run finishes |
| `EipRouters.IterationFinishes` | pkg/graph/graph.go:57-84 | without failures the run finishes within two executions for each stop, plus one |
| `EipRouters.HubVisitsListInOrder` | pkg/graph/router/eip/eip.go:248-288 | a whole run from the router node shows the worker exactly the remaining items, each once and in order, and then ends |
| `EipRouters.SlipVisitsNames` | pkg/graph/router/eip/eip.go:162-190 | a whole run of a routing slip visits exactly the stored names from the position on, in order |
| `EipRouters.RecipientsVisited` | pkg/graph/router/eip/eip.go:205-231 | a whole run of a recipient list visits exactly the recipients from the position on, in order |
| `EipRouters.SplitterShowsItems` | pkg/graph/router/eip/eip.go:248-288 | a whole run of a splitter shows its worker exactly the stored items from the position on, in order |
| `EipRouters.AggregatorCollects` | pkg/graph/router/eip/eip.go:324-346 | the aggregator collects exactly the items it is shown, in order, after what was there, and touches nothing else |
| `EipRouters.AggregatorHandsOnAtCount` | pkg/graph/router/eip/eip.go:324-346 | it hands on exactly when a positive expected number has been collected, and otherwise ends the run |
| `EipRouters.AggregatorStep` | pkg/graph/graph.go:57-84 | inside a graph the run goes on past an aggregator exactly when the expected number is reached with this item, and otherwise finishes with the item collected |
| `EipRouters.AggregatorTakesOne` | pkg/graph/router/eip/eip.go:324-346 | from the router node of a splitter, recipient list or routing slip whose workers feed an aggregator, two executions make one stop and collect its answer; then the run ends, or goes on at the aggregator's next node if the number is reached |
| `EipRouters.CollectsAll` | pkg/graph/router/eip/eip.go:324-346 | an aggregator that hands back to the router node with its number reached collects the answers of all stops, in order, and the run finishes |
| `EipRouters.AggregationExact` | pkg/graph/router/eip/eip.go:324-346 | all answers that are due are collected in a run exactly when one is due, or the aggregator hands back and its number is positive and reached with the first item; otherwise exactly one is |
| `EipRouters.SharedKeyLosesPlan` | pkg/graph/router/eip/eip.go:162-288 | in every state with a stop to make, the decision keeps the list if and only if the router writes no key it reads the list from |
| `EipRouters.KeepsPlanIffSeparate` | pkg/graph/router/eip/eip.go:162-288 | the routers that keep their list in every state are exactly those |
| `EipRouters.SharedKeySplitterGoesOn` | pkg/graph/router/eip/eip.go:265-286 | what a splitter with a shared key does next: it fails if the item was no list, else it goes on in the item's list or ends beyond it |
| `EipRouters.SharedKeySlipFails` | pkg/graph/router/eip/eip.go:172-189 | a routing slip that keeps its position under its own key fails after its first stop |
| `JobSearch.AnalyzeLoop` | examples/job-search-loop/main.go:194-209 | keeps exactly the jobs tagged go, in order |
| `JobSearch.FitJobsKept` | examples/job-search-loop/main.go:194-209 | a job survives the analysis, as often as it was found, if and only if it is tagged go |
| `JobSearch.FitJobsInOrder` | examples/job-search-loop/main.go:194-209 | each job is kept or dropped by itself, and the order stays |
| `JobSearch.CritiqueLoop` | examples/job-search-loop/main.go:230-244 | gives every document, in place, the score the critic has for it, and changes nothing else |
| `JobSearch.ReviseLoop` | examples/job-search-loop/main.go:248-262 | documents scored at least 85 stay; each other one, in place, goes up one revision and gets that number before its text |
| `JobSearch.SubmitLoop` | examples/job-search-loop/main.go:265-275 | appends the ids of exactly the documents that meet the bar, in order |
| `JobSearch.WorstScoreLoop` | examples/job-search-loop/main.go:277-285 | computes the minimum of 100 and all scores |
| `JobSearch.SearchRetriesIff` | examples/job-search-loop/main.go:87-109 | after a search the graph broadens the query exactly with fewer than three jobs and fewer than three attempts, and analyzes otherwise |
| `JobSearch.RevisesIff` | examples/job-search-loop/main.go:114-129 | after the critique the graph revises exactly when some document was scored below 85 and fewer than three revisions were made, and submits otherwise |
| `JobSearch.BroadenDropsLast` | examples/job-search-loop/main.go:181-190 | the constraint dropped is the last one, and a single one stays |
| `JobSearch.BroadenDropsOne` | examples/job-search-loop/main.go:181-190 | each refinement drops exactly one comma-separated constraint while there are at least two |
| `JobSearch.OneMove` | examples/job-search-loop/main.go:87-134 | every node execution keeps the run's invariant and lowers its remaining length, or ends it having submitted |
| `JobSearch.PassingMeetTheBar` | examples/job-search-loop/main.go:265-275 | an id is submitted if and only if a document of that job is scored at least 85 |
| `JobSearch.PassingInOrder` | examples/job-search-loop/main.go:265-275 | each document is submitted or not by its own score, in order |
| `JobSearch.EndsWithinFifteen` | examples/job-search-loop/main.go:87-134 | whatever search and critic answer, a run from a bare query finishes within 15 executions, with one document for each job, and submits exactly those scored at least 85; one below that is left only after the third revision |
| `JobSearch.StubCriticEndsWithinThirteen` | examples/job-search-loop/main.go:230-262 | with the example's critic it finishes within 13 and submits every document |
| `BudgetTracker.StepKeepsInvariant` | pkg/middleware/budget.go:68-78 | every atomic load or compare-and-swap of any call keeps the counter equal to the budget less what was granted, and the history legal |
| `BudgetTracker.Linearizable` | pkg/middleware/budget.go:68-78 | in every interleaving the effects form a legal one-at-a-time execution in which each returned call took effect once, between call and return, with its answer |
| `BudgetTracker.Conserved` | pkg/middleware/budget.go:50-78 | budget minus remaining equals the sum of the granted amounts, and a non-negative budget never goes below zero |
| `BudgetTracker.FailureNeedsInterference` | pkg/middleware/budget.go:68-78 | a compare-and-swap fails only if another call was granted something since the load |
| `BudgetTracker.TokenBudgetTracker.Consume` | pkg/middleware/budget.go:68-78 | the retry loop ends when its rivals fall silent, takes the amount exactly once if granted, and is refused only when it does not fit |
| `BudgetTracker.TokenBudgetTracker.InvokeWithBudget` | pkg/middleware/budget.go:92-108 | blocked when the budget is used up; otherwise free when the runnable fails or nothing is charged, else charged or overdrawn, and only a charge changes the counter beyond what others do meanwhile |
| `BudgetTracker.UseExceedsBudgetBy` | pkg/middleware/budget.go:80-108 | in every interleaving of checks, runs and charges, for all costs, real use passes the budget by exactly what is owed and what was refused, less what remains |
| `BudgetTracker.BlockedIffUsedUp` | pkg/middleware/budget.go:92-108 | after every such history a call is blocked exactly when what was charged has reached the budget |
| `BudgetTracker.BudgetHoldsIffNothingRefused` | pkg/middleware/budget.go:80-108 | with no charge outstanding and no negative costs, the tokens really used are within the budget exactly when no charge was refused |
| `BudgetTracker.RefusedChargesNeverBlock` | pkg/middleware/budget.go:92-108 | a call that never fits is reached every time and never uses the budget up |
| `Checkpointer.PostgresCheckpointer.Save` | pkg/checkpoint/postgres.go:47-73 | inserts with version one, updates at the expected version to the next, or leaves the table alone and reports a conflict, exactly when the thread has a row at another version |
| `Checkpointer.SavedIsLoaded` | pkg/checkpoint/postgres.go:47-92 | a load after a save that won finds what was saved under the next version, which can be saved again while the saved one conflicts; other threads and saves that lost are not seen |
| `Checkpointer.AcceptedSaveExtendsChain` | pkg/checkpoint/postgres.go:47-73 | a save that wins extends the thread's chain of versions; with version zero, or by a node that loaded since the last deletion, it was computed from exactly the row it replaces |
| `Checkpointer.NoUpdateLost` | pkg/checkpoint/postgres.go:47-92 | on every delete-free interleaving the row's version counts the successful saves, each expected version is won once, and every save is based on the one before it |
| `Checkpointer.FreshSaveReplacesItsBase` | pkg/checkpoint/postgres.go:47-103 | on every interleaving, deletions included, a winning save by a node that loaded since the thread's last deletion replaces exactly the row it loaded |
| `Checkpointer.FreshNotAtRisk` | pkg/checkpoint/postgres.go:47-103 | such a node is not at risk |
| `Checkpointer.OverwriteUnseenIffAtRisk` | pkg/checkpoint/postgres.go:47-103 | from every state reached, and without another deletion, a node that keeps what it loaded can come to overwrite a row it never saw exactly when the thread is free, or its row stands before the version the node holds, or at it with other contents |
| `Checkpointer.DeletionPutsAtRisk` | pkg/checkpoint/postgres.go:94-103 | a deletion puts every node at risk that holds a row of the thread |
| `EvalRunner.WorkKeepsInvariant` | pkg/eval/runner.go:63-86 | every step of a worker keeps semaphore and wait group counting what they should, the mutex exclusive and the report complete |
| `EvalRunner.BoundedConcurrency` | pkg/eval/runner.go:51-66 | in every interleaving at most `concurrency` examples are in flight |
| `EvalRunner.DoneMeansPrefixReported` | pkg/eval/runner.go:55-91 | when the runner is done the runs are a permutation of the runs of the launched prefix of the dataset |
| `EvalRunner.StopsEarlyIffCut` | pkg/eval/runner.go:55-66 | in every interleaving the launcher stops short of the dataset exactly when it met a cancellation at its loop with examples left |
| `EvalRunner.WholeDatasetReported` | pkg/eval/runner.go:42-92 | a runner that is done has launched the whole dataset exactly if that did not happen, so always without cancellation, and then the runs are a permutation of those of the whole dataset |
| `EvalRunner.NeverStuck` | pkg/eval/runner.go:51-88 | until the runner is done some goroutine can take a step: no deadlock between slots, lock and wait group |
| `EvalRunner.EffectiveStepLowers` | pkg/eval/runner.go:51-88 | every step that changes anything brings the run closer to its end |
| `EvalRunner.EffectiveStepsBounded` | pkg/eval/runner.go:42-92 | no interleaving takes more than eight effective steps for each example, and two |
| `EvalRunner.CanFinish` | pkg/eval/runner.go:28-91 | every interleaving can be continued until the runner is done, whatever concurrency was requested |
| `EvalRunner.DistinctIdsFixMap` | pkg/eval/runner.go:82-85 | with distinct ids every launched example's scores are in the map, whatever the order of writing |
| `EvalRunner.DoneMeansAllScored` | pkg/eval/runner.go:76-91 | with distinct ids a runner that is done has the scores of exactly the launched examples in its map |
| `EvalRunner.CompletionOrderIrrelevant` | pkg/eval/runner.go:42-92 | two complete runs over the same launched prefix report the same score map and the same runs up to order |
| `EvalRunner.OrderIrrelevant` | pkg/eval/runner.go:110-117 | sums and counts over the score map do not depend on the order of iteration |
| `EvalRunner.AddScores` | pkg/eval/runner.go:113-116 | the inner loop adds exactly the scores of each key |
| `EvalRunner.ScoresAddUp` | pkg/eval/runner.go:112-117 | a score counts once, with its value, for its own key, and lists of scores add up |
| `EvalRunner.ExamplesAddUp` | pkg/eval/runner.go:110-117 | each example adds the total and the count of its scores |
| `EvalRunner.AggregateScores` | pkg/eval/runner.go:109-125 | an evaluator has a mean exactly if it scored something, and it is the total over the count for every iteration order |
| `PromptKeys.ExtractionExact` | pkg/prompt/cache.go:201-207 | the tenant is recovered from its keys exactly when it neither contains `:prompt:` nor ends with `:prompt` |
| `PromptKeys.KeysUnique` | pkg/prompt/cache.go:145-147 | for such tenants a key determines tenant and slug |
| `PromptKeys.ExtractedIsSeparable` | pkg/prompt/cache.go:201-207 | what is extracted from any key is a separable tenant, and the key is one of that tenant's |
| `PromptKeys.KeysOwnIffSeparable` | pkg/prompt/cache.go:145-147 | a tenant shares no key with another pair of a separable tenant exactly when it is separable itself; otherwise every one of its keys is also a key of another tenant |
| `PromptKeys.TenantsShareKeyIff` | pkg/prompt/cache.go:145-147 | two tenants share some key exactly when one of them followed by the separator is a prefix of the other followed by it |
| `PromptCache.Cache.DoRefresh` | pkg/prompt/cache.go:164-198 | a refresh that nothing overlaps files the fragment of every key with a tenant, and nothing else, whatever Redis holds |
| `PromptCache.RebuiltMirrors` | pkg/prompt/cache.go:164-198 | when all keys are of separable tenants, that snapshot mirrors Redis for every tenant and slug |
| `PromptCache.FiledElsewhereIff` | pkg/prompt/cache.go:201-207 | a put is filed elsewhere than under its own tenant and slug exactly when the tenant is not separable |
| `PromptCache.NoRequestLost` | pkg/prompt/cache.go:121-126 | in every interleaving a requested refresh is pending in the channel, about to scan, being served by a scan made after the request, or served by one |
| `PromptCache.LoopStep` | pkg/prompt/cache.go:209-222 | while the request is not served, the loop has a next step, and it brings the service closer |
| `PromptCache.RequestCanBeServed` | pkg/prompt/cache.go:164-222 | after whatever happened so far, finitely many steps of the loop turn a scan made after the request into the snapshot |
| `PromptCache.GetIsOwnAndFresh` | pkg/prompt/cache.go:55-63 | a read returns a put of its own tenant and slug, no older than the last one before the last completed refresh's scan |
| `PromptCache.QuiescentGetIsLastPut` | pkg/prompt/cache.go:164-198 | with no refresh pending or running, puts before the last request are visible, and without a later put a read returns exactly the last one |
| `PromptCache.StaleUntilRefreshed` | pkg/prompt/cache.go:88-93 | after a put a read can still return the previous fragment until the next refresh |
| `PromptCache.MisfiledRead` | pkg/prompt/cache.go:164-207 | a put of any tenant that is not separable is, once refreshed, what a read of a different tenant answers, unless it is filed under none |
| `MemoryStore.Store.CreateSpec` | pkg/workflow/store/memory/memory.go:44-68 | appends an unknown version as a draft, keeps a known one, and resurrects a deleted workflow |
| `MemoryStore.Store.GetActive` | pkg/workflow/store/memory/memory.go:71-83 | the active version of a workflow that is not deleted, else not found |
| `MemoryStore.Store.ActivateVersion` | pkg/workflow/store/memory/memory.go:134-152 | promotes a known version and demotes the previous one, or reports not-found or conflict and changes nothing |
| `MemoryStore.Store.DeleteSpec` | pkg/workflow/store/memory/memory.go:155-166 | marks the workflow deleted and forgets its active version, or fails if there is none |
| `MemoryStore.CreateMeans` | pkg/workflow/store/memory/memory.go:44-68 | what reads see after creating: a known version as it was, an unknown one as a draft at the end of the list, all other workflows as they were |
| `MemoryStore.ActivateMeans` | pkg/workflow/store/memory/memory.go:134-152 | activation succeeds exactly for versions that can be read, and fails as not found exactly where nothing is listed; `Get` then returns that version as active, the one active before reads as a draft, all else reads as before |
| `MemoryStore.DeleteMeans` | pkg/workflow/store/memory/memory.go:155-166 | after a deletion no read finds the workflow, and creating a version brings it back without an active one |
| `BlobStore.Store.CreateSpec` | pkg/workflow/store/blob/blob.go:63-95 | writes an unknown version and appends it to the log, and removes the deletion marker |
| `BlobStore.Store.GetActive` | pkg/workflow/store/blob/blob.go:98-107 | the spec that the active pointer names, unless the deletion marker stands |
| `BlobStore.Store.ReadVersions` | pkg/workflow/store/blob/blob.go:223-239 | the trimmed non-blank lines of the log, in order |
| `BlobStore.Store.ActivateVersion` | pkg/workflow/store/blob/blob.go:156-169 | writes the pointer for a stored version of an undeleted workflow, else reports a conflict |
| `BlobStore.Store.DeleteSpec` | pkg/workflow/store/blob/blob.go:172-181 | writes the deletion marker and leaves the active pointer |
| `BlobStore.KeyInjective` | pkg/workflow/store/blob/blob.go:57-59 | with slash-free tenants and names, equal keys mean equal tenant, name and file |
| `BlobStore.KeyFormat` | pkg/workflow/store/blob/blob.go:57-59 | the key of a version is the prefix, `workflows/`, tenant, name and version in that order, with slashes between and the suffix |
| `BlobStore.KeysSharedIffSlash` | pkg/workflow/store/blob/blob.go:57-59 | a workflow shares all its keys with another one exactly when its tenant or its name contains a slash |
| `Text.LogRoundTrip` | pkg/workflow/store/blob/blob.go:223-248 | reading a log of non-blank entries without white space gives back the entries in order |
| `Text.TrimMeans` | pkg/workflow/store/blob/blob.go:223-239 | trimming cuts exactly the white space at both ends |
| `StoreAgreement.CreateMatches` | pkg/workflow/store/blob/blob.go:63-95 | creating keeps the bucket's files of a workflow in step with its memory entry |
| `StoreAgreement.ActivateMatches` | pkg/workflow/store/blob/blob.go:156-169 | so does activating, which also mends a forgotten active version |
| `StoreAgreement.DeleteMatches` | pkg/workflow/store/blob/blob.go:172-181 | so does deleting, except that memory then forgets the active version the bucket still points at |
| `StoreAgreement.RunSimulates` | pkg/workflow/store/blob/blob.go:63-181 | after every run with slash-free tenants and names and with non-blank versions without white space, the bucket simulates the memory store, workflow by workflow |
| `StoreAgreement.StoresAgree` | pkg/workflow/store/memory/memory.go:44-152 | on every such run, deletions included, `Activate` succeeds together and created workflows list the same versions in the same order, and `Get` agrees exactly if the workflow is deleted now or its active version was not forgotten by a delete since the last activation |
| `StoreAgreement.AgreeWithoutDelete` | pkg/workflow/store/blob/blob.go:98-112 | on such runs without deletes `Get` always agrees, and `GetVersion` up to the status, which differs exactly for the active version |
| `StoreAgreement.DeleteDiverges` | pkg/workflow/store/memory/memory.go:155-166 | create, activate, delete, create again: the bucket serves the old active version and memory does not |
| `StoreAgreement.ListedInCreationOrder` | pkg/workflow/store/memory/memory.go:44-131 | through every run the version list is the order in which versions were first created, each once |
| `StoreAgreement.NewestFirstIffOne` | pkg/workflow/interfaces.go:43-44 | both stores list that order, so newest first exactly when the workflow has at most one version |
| `TokenWindow.DefaultTokenCount` | pkg/memory/store.go:46-56 | a quarter of the length, rounded down, and at least one |
| `TokenWindow.CostsAddUp` | pkg/memory/postgres.go:127-142 | a conversation costs what its messages cost together |
| `TokenWindow.ApplyWindow` | pkg/memory/postgres.go:127-142 | returns the suffix reached by walking back while the budget lasts, and everything when there is no limit |
| `TokenWindow.MemoryStore.Append` | pkg/memory/store.go:89-94 | adds one message at the end |
| `TokenWindow.MemoryStore.Window` | pkg/memory/store.go:96-121 | the same window over the stored messages |
| `TokenWindow.WindowIsLongestFit` | pkg/memory/postgres.go:127-142 | for non-negative costs a suffix fits the limit if and only if it is no longer than the window |
| `TokenWindow.MixedCostsHideALongerFit` | pkg/memory/postgres.go:133-140 | a counter with costs of both signs has a conversation whose window is not the longest suffix that fits |
| `TokenWindow.LongestFitIffOneSign` | pkg/memory/postgres.go:127-142 | the window is the longest suffix that fits, for all conversations and limits, exactly when all costs are non-negative or all are non-positive |
| `MinioStore.KeyOrder` | pkg/memory/minio.go:47-49 | for numbers below 10^16 the string order of keys is the numeric order |
| `MinioStore.KeyFormat` | pkg/memory/minio.go:47-49 | a key is tenant, thread and the number, padded to sixteen digits, with the suffix |
| `MinioStore.BeforeIsLexicographic` | pkg/memory/minio.go:69-84 | the order of keys is lexicographic: a proper prefix comes first, and else the first difference decides |
| `MinioStore.KeyOrderBreaks` | pkg/memory/minio.go:47-49 | the key of 10^16 sorts before the key of its predecessor |
| `MinioStore.SeqOfKey` | pkg/memory/minio.go:136-147 | parsing undoes formatting, at any number of digits |
| `MinioStore.SortKeys` | pkg/memory/minio.go:69-84 | lists the keys each once in ascending order |
| `MinioStore.SortedListingUnique` | pkg/memory/minio.go:69-84 | a set of keys has one ascending listing |
| `MinioStore.MinIOMessageStore.Append` | pkg/memory/minio.go:52-66 | stores the message under the next number |
| `MinioStore.MinIOMessageStore.Restore` | pkg/memory/minio.go:125-156 | sets the counter to the highest number among the thread's keys |
| `MinioStore.MinIOMessageStore.Window` | pkg/memory/minio.go:69-98 | the token window over the messages in key order |
| `MinioStore.PrefixIsolated` | pkg/memory/minio.go:47-49 | with slash-free names no other thread's key carries this thread's prefix |
| `MinioStore.NothingOverwritten` | pkg/memory/minio.go:52-66 | across all restarts that call `Restore`, and all writes of other threads, no append overwrites an object and every message stays under its number |
| `MinioStore.AppendOverwritesIff` | pkg/memory/minio.go:52-66 | with slash-free names, in every run, restarts without `Restore` included, the next append overwrites an object exactly when the counter stands below the highest number written; for a fresh process, exactly when the thread has a message |
| `MinioStore.MessagesKeptIff` | pkg/memory/minio.go:52-156 | over every such run, as many objects as messages remain, each under the number of its append, exactly when every append came with the counter at the highest number written; otherwise fewer |
| `MinioStore.RestoredIsCareful` | pkg/memory/minio.go:121-156 | that is so in every run whose restarts all call `Restore` |
| `MinioStore.AppendOrderExact` | pkg/memory/minio.go:69-98 | the listing comes back in append order exactly while there are fewer than 10^16 messages |
| `MinioStore.WindowInAppendOrder` | pkg/memory/minio.go:69-98 | in every run that keeps all messages an unbounded window returns the messages in append order, across restarts, while there are fewer than 10^16 |
| `Decimals.PaddedDenotes` | pkg/memory/minio.go:47-49 | reading a padded numeral gives back the number |
| `VectorStore.CauchySchwarz` | pkg/vector/memory.go:81-95 | the squared dot product never exceeds the product of the squared magnitudes |
| `VectorStore.CosineBounded` | pkg/vector/memory.go:81-95 | every score lies between -1 and 1 |
| `VectorStore.CosineOfItself` | pkg/vector/memory.go:81-95 | a vector with a magnitude scores 1 against itself, and the score is symmetric |
| `VectorStore.Cosine` | pkg/vector/memory.go:81-95 | the accumulating loop computes the score, which times the roots of both magnitudes is the sum of the coordinate products, and zero for vectors of different length or without magnitude |
| `VectorStore.ScoreTimesMagnitudes` | pkg/vector/memory.go:81-95 | the same of the score itself |
| `VectorStore.DotCoordinate` | pkg/vector/memory.go:81-95 | changing one coordinate changes the dot product by the difference times the coordinate it meets |
| `VectorStore.DotWithZero` | pkg/vector/memory.go:81-95 | the dot product with a zero vector is zero |
| `VectorStore.ScalingKeepsScore` | pkg/vector/memory.go:81-95 | scaling a vector by a positive factor keeps the score |
| `VectorStore.NegationFlipsScore` | pkg/vector/memory.go:81-95 | negating a vector negates the score |
| `VectorStore.MetadataMatches` | pkg/vector/memory.go:70-77 | true exactly if every filter key reads as its filter value, a missing key reading as nil |
| `VectorStore.StoredMeans` | pkg/vector/memory.go:23-30 | after a batch the last document of each id is stored and all others stay |
| `VectorStore.MemoryVectorStore.Upsert` | pkg/vector/memory.go:23-30 | stores the batch, one document after the other |
| `VectorStore.MemoryVectorStore.Delete` | pkg/vector/memory.go:60-67 | removes exactly the listed ids |
| `VectorStore.MemoryVectorStore.Candidates` | pkg/vector/memory.go:36-46 | in whatever order the map is walked, exactly the documents that pass the filter, each once, with its score |
| `VectorStore.MemoryVectorStore.Search` | pkg/vector/memory.go:32-58 | returns min(topK, matches) distinct documents that pass the filter, in descending score, with no omitted match scoring above a returned one; a negative limit fails |
| `VectorStore.AnswerDetermined` | pkg/vector/memory.go:32-58 | the list of scores does not depend on map order or on how ties are sorted, nor do the documents where no two matches tie |

## Left out

- HTTP, SSE and command-line code, provider adapters, telemetry, probes, the TypeScript apps, authentication and context-value helpers.
- YAML and JSON encoding, hashes, UUIDs and text templates: an encoded value is kept as the value it encodes. A decoding error is therefore not part of this model.
- Git and the other Postgres stores, file watching, and network failures of Redis, MinIO, the blob bucket and Postgres: a command is taken to succeed with its documented meaning. A context cancelled in the middle of a store command is not modelled.
- The skill and agent stores, the prompt memory backend and the journal: they would add copies of machines modelled here, or have no invariant across their operations.
- Floating-point rounding (scores, sums and cosines are real numbers; the square root is a parameter that is right on every non-negative number), wall-clock time, integer overflow of budgets, counters and sequence numbers.
- The quoting of names in tool answers, which is a parameter; aliasing of the `Data` and `Meta` maps between states that a graph holds: `GraphExec` and `Workflow` pass states as values, with a router or runnable returning the state it leaves. `EipRouters.SharedState` models the in-place writes of the routers. A nil `Meta` is not distinguished from an empty one.
- The configuration parsing of the routers, and the content-based and filter routers, which are single look-ups.
- Deletes and renames through the prompt cache, which do not reach Redis, and closing it.
- The `List` operations of the spec stores; specs whose `_active` object holds something other than text.
- `WithMaxIterations` (one atomic increment and a comparison) and the streaming variants of the middleware.
- Structured agent arguments, tool schemas, skill bodies and the choice of a provider: the agent loop neither branches on them nor counts them.
- The names of agents and nodes that are put around the cause of an agent's failure on its way out: the agent loop keeps the cause.
- GraphExec.Graph.Invoke: takes a limit on node executions, because a cyclic graph may run for ever; the result is stated for every limit, and `GraphExec.ResultIsStable` says that a larger limit changes nothing.
- AgentResolver.ResolveAgents: the resolver is a finite map from names to agents that does not change during resolution; a resolver that answers differently from call to call is not modelled.
- `BudgetTracker.UseExceedsBudgetBy`: charging is one step there, which `BudgetTracker.Linearizable` justifies; tokens that a failing runnable used are not reported to the middleware and not counted.
- EvalRunner.CompletionOrderIrrelevant: what running and scoring an example yields depends only on the example, not on time or on the other examples.
- PromptCache.GetIsOwnAndFresh: the freshness results about interleavings assume separable tenants, since a put of any other tenant is filed under a different one (`PromptCache.FiledElsewhereIff`, `PromptCache.MisfiledRead`).
- The human-readable log of the job-search example, and the particular answers of the search stub, since the results hold for every search.
- MinioStore.MinIOMessageStore.Restore: sequence numbers beyond 63 bits, which the original skips as unparsable; numerals with a sign, which the store never writes; and the read-back of the last object, which only confirms that it decodes.
- VectorStore.MemoryVectorStore.Search: metadata values that cannot be compared, where the original panics.
