# A model of the research-to-order pipeline

The repository turns company filings into statements, valuations and forecasts,
allocates a portfolio from them, and pushes orders through a risk gate, staging
and a broker adapter. Workflows over typed data products record what they did so
that a second program can replay them; a daemon works the same steps through a
durable queue. This project models the logic of those parts and proves what they
promise, over all inputs, all runs and all reachable states.

`dafny verify dfyconfig.toml` checks everything.

## How the modules follow the source

| files | what they model |
|---|---|
| `Ordering.dfy` | option and result types, string order, the sorting that BTree maps, `Vec::sort` and `ORDER BY` perform |
| `Topology.dfy` | the topological order over in-degree counts and a queue |
| `Workflow.dfy`, `Validation.dfy`, `Authority.dfy` | workflow specs, the bootstrapped registry, every validation pass, and what an accepted workflow guarantees about authority; `Workflow.dfy` also holds the trading modes |
| `CanonicalJson.dfy`, `Identity.dfy` | the canonical printer, and the payloads hashed into product and node-run ids |
| `Lineage.dfy`, `ProductStore.dfy` | the recursive lineage walk, and the deduplicating product store |
| `Executor.dfy`, `RunProgress.dfy`, `WorkflowRun.dfy` | what a node persists, what a run keeps after each node, and the sequential executor |
| `Replay.dfy`, `Reuse.dfy`, `PreRun.dfy`, `ReuseRejected.dfy` | the replay program, exactly when it accepts a run that reused products, what the store and the plan tell of that and of failures before the run, and a run it rejects |
| `Lexer.dfy` | comment stripping and word splitting of the flow language |
| `WorkQueue.dfy`, `QueueRuns.dfy`, `QueueExact.dfy` | the durable queue's transactions and role handlers, runs of many workers over them, and exactly when a success, a failure or a sole claimant is kept |
| `Facts.dfy` | canonical facts, comparability rules, and the one-pass "latest" selection shared by the engine |
| `Windows.dfy`, `Ttm.dfy` | bounded windows kept in place, and trailing-twelve-month selection |
| `TtmAccuracy.dfy`, `QuarterSpan.dfy`, `BridgeOrder.dfy` | what bridged and summed values mean, and exactly when the bridge depends on scan order |
| `Statements.dfy`, `Valuation.dfy`, `ValuationPlan.dfy` | statement snapshots, their quality flags, discounted cash flow, confidence, score, and the valuation plan |
| `Growth.dfy`, `GrowthOrder.dfy`, `GrowthPlan.dfy` | the growth pair, exactly when it depends on scan order, and the growth plan |
| `Allocation.dfy` | score-weighted targets and order intents, shared by both plans |
| `Gate.dfy`, `Ledger.dfy`, `LedgerRuns.dfy`, `LedgerOverlap.dfy` | the risk gate, the order ledger's transactions, runs of them, and overlapping calls |

Doubles are `real`, days and timestamps are `int`, flag words are sets of flags,
tables are sequences or maps with the unique keys of `schema.sql`, and every
transaction is one atomic step. Digests, identifiers, the clock, command results
and the broker reconciliation row are parameters. Code that updates fields or
arrays in place is a class or a method over arrays; each such method is proved
against a function, and the lemmas speak about that function.

## Where the code and its promises part

Each point names the lemmas that show it on a concrete input and, where there is
one, the exact condition under which the promise holds.

- `docs/DAEMONS.md` draws failed work as leased again. The claim query takes only
  queued rows and expired leases, so no step leases a failed row. A failed row of
  any type leaves that status in exactly three ways: watching names it, a success
  enqueues it, or a claim on it from before completes with anything but another
  failure (`QueueExact.FailureLeftExactly`), and one of them lies between a
  failure and any later lease (`QueueExact.LeasedOnlyRevived`). For the authority
  stages none of them happens in a disciplined run (`QueueRuns.AuthorityFinal`,
  and `QueueExact.FailedAuthority` reaches such a row).
- Completions update a row by id whoever holds it: a stale worker's failure
  overwrites a success (`QueueRuns.StaleFailureOverwritesSuccess`), and watching
  again requeues a leased pull row (`QueueRuns.PullRowsAreShared`). For rows of
  every type a success is final exactly when no claim on the row is in flight
  (`QueueExact.SuccessFinalExactly`), and a sole holder is lost in exactly three
  ways (`QueueExact.HolderLostExactly`). The exactly-once results for authority
  stages therefore ask that workers finish or crash within their leases and that
  model runs get fresh ids.
- The four quarters of a trailing year are never checked for contiguity
  (`QuarterSpan.QuartersMayGap`). Whatever the daily flow, their sum is the flow
  of the reported span exactly when they are contiguous
  (`QuarterSpan.QuartersExactly`).
- Bridge candidates tie on the latest of three filing times. An amended fiscal
  year filed before the current period loses to the original whenever the
  original is scanned first (`BridgeOrder.AmendedYearMayLose`). The value is the
  same in every scan order exactly when all best triples give one point
  (`BridgeOrder.OrderFreeExactly`).
- A same-day amendment on another basis leaves the growth pair with a previous
  period it is not comparable to (`Growth.AmendmentKeepsPrevious`,
  `Growth.ComparableExactly`). Outside the loader's order the previous period
  may depend on the order (`Growth.PreviousDependsOnOrder`), and
  `GrowthOrder.PreviousOrderFreeExactly` says exactly when it does not.
- Gate, stage and send select before they open the transaction that inserts. Two
  overlapping gate calls decide an intent twice
  (`LedgerOverlap.OverlappingGatesDecideTwice`); each call keeps the books sound
  exactly when nothing it selected was handled in between
  (`LedgerOverlap.StaleGateExactly` and its siblings). The runs of
  `LedgerRuns.dfy` are runs of calls that do not overlap.
- The growth plan's gross exposure bound holds for all inputs exactly when the
  minimum expected return is not negative, which input validation does not ask
  (`GrowthPlan.GrossBoundExactly`).
- A rendered word list comes back from the lexer exactly when no word is empty
  (`Lexer.RenderRoundTrip`).
- Product dedup ignores parents and availability, so lineage tables may be
  cyclic; the walk is proved on every table. A run may also find its output in
  the store under other parents, and the replay then rejects it although every
  command succeeded (`ReuseRejected.ReusedRunIsRejected`). For a run id that no
  stored domain product names, over an honest store, a completed run replays
  exactly when no product stored under a key that a deterministic operation plans
  has a parent: the store and the plan decide it before the run
  (`WorkflowRun.RecordThenReplay`, `PreRun.AgreesExactly`). The step below it
  needs no new run id: a completed run replays exactly when every lineage row its
  reused outputs already had is one it records itself (`Reuse.ReplaysExactly`).

## Model

| member | source | states |
|---|---|---|
| `Topology.TopologicalOrder` | `cli/src/framework/graph.rs:916-958` | for any ids and edges between listed nodes, repeated edges included: an order comes back exactly when the ids are distinct and no directed cycle exists, and it is a permutation of the ids with every edge pointing forward |
| `Topology.ForwardMeansAcyclic` | `cli/src/framework/graph.rs:916-958` | a forward order of all nodes leaves no walk that returns to its start |
| `Topology.StuckMeansCycle` | `cli/src/framework/graph.rs:949-957` | a nonempty set of nodes that each keep a predecessor in the set contains a concrete cycle, so a short order is always a real cycle |
| `Topology.ResolveChildren` | `cli/src/framework/graph.rs:938-950` | dequeuing a node lowers each child by its number of edges and queues exactly the children that become free |
| `Validation.ValidateWorkflow` | `cli/src/framework/graph.rs:523-592` | accepts exactly the well-formed workflows: layers, node ids, outputs, inputs, contracts, authority shape, mode and class rules all hold and the graph is acyclic; the returned order and edges belong to the spec |
| `Validation.CollectNodeEdges` | `cli/src/framework/graph.rs:705-744` | one edge per input in declaration order, violation exactly when an input names an unknown node or role |
| `Validation.CheckContract` | `cli/src/framework/graph.rs:804-856` | no violation exactly when every input and output type is one the registered algorithm declares |
| `Validation.CheckShape` | `cli/src/framework/graph.rs:858-902` | no violation exactly when every staged order set has a risk decision input, and every broker event set a staged order and a reconciliation input |
| `Validation.CheckMode` | `cli/src/framework/invariants.rs:63-121` | no violation exactly when mode, permissions and declared resources admit the algorithm |
| `Validation.CheckClasses` | `cli/src/framework/invariants.rs:123-162` | no violation exactly when Class C algorithms declare no authority output and Class A algorithms read no Class C product |
| `Authority.ClassAAncestors` | `cli/src/framework/graph.rs:746-914` | in an accepted workflow every node on any walk into a Class A node is Class A, however long the walk |
| `Authority.TypedSource` | `cli/src/framework/graph.rs:858-914` | a node that reads a type has a producer declaring that type strictly before it in the order |
| `Authority.BrokerEventChain` | `cli/src/framework/graph.rs:858-902` | a node declaring broker events has a risk decision before a staging node before it, and a reconciliation before it, all Class A, in a submit mode with both permissions |
| `Authority.BrokerMode` | `cli/src/framework/invariants.rs:63-121` | only the mock sender can declare broker events, and only in paper, live_limited or live with external writes and the broker resource allowed |
| `CanonicalJson.Unambiguous` | `cli/src/framework/canonical_json.rs:10-47` | two values print alike exactly when they are equal up to reordering object members at every depth |
| `CanonicalJson.Reading` | `cli/src/framework/canonical_json.rs:10-47` | equal texts followed by delimiters come from equivalent values, so a value can be read off any text it is printed into |
| `CanonicalJson.EquivalentPrint` | `cli/src/framework/canonical_json.rs:19-38` | reordering members at any depth never changes the text |
| `Identity.ProductPayloadIdentity` | `cli/src/framework/hash.rs:26-55` | pre-hash product payloads agree exactly when the identity fields agree and the parents agree as multisets |
| `Identity.NodeRunPayloadIdentity` | `cli/src/framework/hash.rs:74-93` | pre-hash node-run payloads agree exactly when the identity fields agree and the input products agree as multisets |
| `Ordering.SortStringsCanonical` | `cli/src/framework/hash.rs:36-38` | sorting two parent lists gives the same list exactly when they are permutations of each other |
| `Lineage.Walker.Walk` | `cli/src/framework/storage.rs:171-201` | terminates on every table, cyclic ones included; a completed walk added exactly what is reachable and not yet seen, with each row of an added child once |
| `Lineage.LineageJson` | `cli/src/framework/storage.rs:153-201` | succeeds exactly when every reachable product is stored; then the products are exactly those reachable from the root and the edges are, as a multiset, the rows of reached children; a failure names a reachable missing product |
| `Lineage.ForeignKeysSuffice` | `cli/src/framework/storage.rs:153-163` | under the table's foreign keys the walk fails only when the root itself is missing |
| `ProductStore.Store.Persist` | `cli/src/framework/storage.rs:13-83` | a product whose unique key is stored is reused, otherwise it is stored under the digest of its payload; its parents are recorded on the stored product either way; it fails exactly when that id is taken and the key is not, and then changes nothing |
| `ProductStore.InsertNew` | `cli/src/framework/storage.rs:67-81` | a new product gets exactly one lineage row per distinct parent |
| `ProductStore.InsertHere` | `cli/src/framework/storage.rs:67-81` | what recording parents does to a product's own lineage rows does not depend on any other row |
| `ProductStore.InsertAgain` | `cli/src/framework/storage.rs:67-81` | recording parents that are already recorded changes nothing |
| `ProductStore.GrownStep` | `cli/src/framework/storage.rs:13-83` | over any series of persists no product is changed, only named ids are new, and only their lineage rows change |
| `Executor.PersistNodeOutputs` | `cli/src/framework/executor.rs:239-371` | one transaction stores the planned rows: the command output under every declared role and, for a clean exit, every domain output; a failing command keeps its command output, and a failed insertion leaves the store unchanged and means an output of unknown type, or a planned row whose key was free and whose id was a stored product's or another planned row's |
| `Executor.PlanCovers` | `cli/src/framework/executor.rs:413-424` | after a clean run every declared role of the node holds a stored product of the declared type |
| `Executor.RecordLast` | `cli/src/framework/executor.rs:426-444` | what a later node finds under a role is the last product persisted for it |
| `Executor.PlannedFrom` | `cli/src/framework/executor.rs:239-411` | the rows a node persists follow from the session and the node alone, and carry its source and the content of its payload |
| `WorkflowRun.ResolveInputs` | `cli/src/framework/executor.rs:426-444` | resolves each input to the product recorded under its node and role, in order, and fails only on one never recorded |
| `WorkflowRun.Engine.RunNode` | `cli/src/framework/executor.rs:92-176` | a node whose sources are done runs to a record that keeps every run invariant, or leaves earlier records and products as they were and names what stopped it: an input product available after the decision time, an unclean command, or an id in use |
| `WorkflowRun.Engine.Run` | `cli/src/framework/executor.rs:34-185` | on a validated workflow input resolution never fails; succeeded nodes are a prefix of the order; every recorded input has its declared type; a failure means, of the initial store and the plan, a product from after the decision time under a key some input's source plans, an unclean command, or two different rows with one id; a completed run that found nothing in the store leaves records that match it |
| `WorkflowRun.PredecessorsFirst` | `cli/src/framework/executor.rs:92-177` | in every state of a run a node has a record only after all nodes it reads from succeeded |
| `Replay.ReplayOutput` | `cli/src/framework/replay.rs:54-150` | an output matches exactly when product, node, configuration hash, content hash and parents agree with the record |
| `Replay.ReplayWorkflow` | `cli/src/framework/replay.rs:12-164` | accepts exactly when every deterministic operation's record matches the store |
| `WorkflowRun.RecordThenReplay` | `cli/src/framework/replay.rs:12-189` | every completed run is accepted by the replay, given no repeated (node, role) input and no digest collisions, when its deterministic operations found nothing in the store, in particular when the dedup keys of the rows they persist were fresh; over an honest store, for a run id that no domain product names, it is accepted exactly when no initially stored product under a key that a deterministic operation plans has a parent |
| `PreRun.AgreesExactly` | `cli/src/framework/storage.rs:59-81` | for a run id that no stored domain product names: what the run recorded agrees with the lineage it found exactly when, in the store it started on, nothing under a key that a deterministic operation plans has a parent |
| `PreRun.FoundIsListed` | `cli/src/framework/storage.rs:59-81` | whatever a node of such a run finds under a planned key is its command output, and the run lists it |
| `PreRun.InputsAreNew` | `cli/src/framework/executor.rs:426-444` | no input of a deterministic operation of such a run was in the store before |
| `PreRun.ObstacleBefore` | `cli/src/framework/invariants.rs:164-216` | whatever blocks a node in the middle of a run was there in the initial store and the plan: what the run itself stores is never late |
| `Reuse.ReplaysExactly` | `cli/src/framework/storage.rs:59-81` | for nodes that plan no common keys, over an honest store, a completed run replays exactly when every lineage row its reused outputs already had is one it records itself |
| `Reuse.TrackedStep` | `cli/src/framework/storage.rs:13-83` | through a run the lineage of a deterministic operation's output stays what the store had on it and the operation's inputs, and with fresh keys nothing is ever found |
| `Reuse.InsertExactly` | `cli/src/framework/storage.rs:67-81` | recording distinct parents leaves exactly those parents exactly when every earlier row was one of them |
| `Reuse.CommandOutputClean` | `cli/src/framework/replay.rs:100-140` | a command output a deterministic operation lists has the digest of its payload and a clean exit, also when it was found in an honest store |
| `ReuseRejected.ReusedRunIsRejected` | `cli/src/framework/storage.rs:59-81` | a run whose every command succeeds finds its output stored under another parent, completes, and is rejected by the replay |
| `RunProgress.Advance` | `cli/src/framework/executor.rs:107-176` | one more node keeps stored products, typed records, matching contents and produced outputs for all nodes done so far |
| `RunProgress.LineageKept` | `cli/src/framework/executor.rs:251-371` | a later node never adds parents to the outputs of an earlier deterministic operation unless it found its own output among older products |
| `Lexer.StripComment` | `cli/src/framework/graph.rs:305-346` | yields the trimmed text before the first unquoted hash, nothing for a blank line, an error exactly for an unterminated quote |
| `Lexer.SplitWords` | `cli/src/framework/graph.rs:348-390` | splits exactly as the word automaton: quotes join, a backslash inside quotes escapes, whitespace outside separates, an open quote is an error |
| `Lexer.StrippedSplits` | `cli/src/framework/graph.rs:305-390` | whatever line comment stripping yields, word splitting never reports an unterminated quote on it |
| `Lexer.CommentIgnored` | `cli/src/framework/graph.rs:305-346` | appending a comment to a line that lexes changes nothing |
| `Lexer.RenderRoundTrip` | `cli/src/framework/graph.rs:305-390` | the quoted, escaped, space-joined rendering of any word list passes through both lexers and returns its nonempty words, and returns the list itself exactly when no word is empty |
| `WorkQueue.Queue.Claim` | `daemon.go:513-547` | leases a claimable row of the type that no other candidate precedes by priority then age, and counts the attempt; reports none exactly when none is claimable |
| `WorkQueue.Queue.Enqueue` | `daemon.go:605-614` | an upsert by unique key: a succeeded or dead row stays, any other row is queued again with its lease and attempts untouched, a missing row is added |
| `WorkQueue.Queue.SucceedItem` | `daemon.go:549-571` | marks the row succeeded without a lease and enqueues its successors in the same transaction |
| `WorkQueue.Queue.Settle` | `daemon.go:251-348` | a handler succeeds, fails or defers its row as the mode and the command outcome decide, whoever holds the row by then |
| `QueueRuns.SoundStep` | `daemon.go:513-615` | every step of any worker, crashes and stale completions included, keeps provenance, conservation, lease hygiene and attempt counts |
| `QueueRuns.SoundRun` | `daemon.go:223-348` | in every reachable state a parse row has its pull row, a submit row its stage row and a stage row its risk row; every pull or parse row that ever succeeded has its successor; a submit row follows a staging success in a submit-allowed mode; settled rows hold no lease |
| `QueueRuns.ExclusiveStep` | `daemon.go:513-615` | with lease-respecting workers and fresh run ids every step keeps one live claimant per authority row and counts its successes once |
| `QueueRuns.AuthorityAtMostOnce` | `daemon.go:287-348` | in every such run a risk, stage or submit row has at most one live claimant, who holds its unexpired lease, and at most one success |
| `QueueRuns.AuthorityRowStep` | `daemon.go:549-615` | an authority row changes only by being claimed or by its claimant completing; it is never re-enqueued |
| `QueueRuns.AuthorityFinal` | `daemon.go:549-615` | a settled authority row never changes again, failed ones included |
| `QueueExact.SuccessLostExactly` | `daemon.go:549-614` | for rows of every type a step takes a success away exactly when it completes a claim on that row without success |
| `QueueExact.SuccessFinalExactly` | `daemon.go:513-614` | a success stays through everything that may follow exactly when no claim on the row is in flight |
| `QueueExact.HolderLostExactly` | `daemon.go:513-614` | a sole claimant that holds its lease is lost in a step exactly when the lease runs out, watching names the row, or another claim's success enqueues it |
| `QueueExact.FailureLeftExactly` | `daemon.go:513-614` | a failed row of any type stops being failed in a step exactly when watching names it, a success enqueues it, or a claim on it completes with anything but another failure; no step leases it |
| `QueueExact.LeasedOnlyRevived` | `daemon.go:513-614` | between a failure and any later lease of the row lies one of those three |
| `QueueExact.FailedAuthority` | `daemon.go:287-311` | a disciplined run whose risk check ends failed |
| `QueueRuns.PullRowsAreShared` | `daemon.go:474-511` | a run in which two live workers hold the same pull row |
| `QueueRuns.StaleFailureOverwritesSuccess` | `daemon.go:573-587` | a run in which a worker past its lease turns a succeeded row into a failed one |
| `Selection.LatestIsFirstMaximum` | `engine/value.cpp:49-88` | a scan that replaces its candidate only by strictly newer elements ends with the first of the maxima, or with none exactly when nothing is eligible |
| `Selection.LatestOrderFree` | `engine/statements.cpp:445-470` | without ties among eligible elements the answer is the same in every scan order |
| `Windows.ShiftIn` | `engine/statements.cpp:129-137` | the in-place shift places the new entry at its rank and drops the last entry of a full window |
| `Windows.InsertAnchorDesc` | `engine/statements.cpp:113-138` | the array then holds the window with the day inserted; a nonpositive, known or too early day changes nothing |
| `Windows.InsertQuarterDesc` | `engine/statements.cpp:140-170` | the array then holds the window with the fact inserted, or its day's fact replaced when filed strictly later |
| `Windows.InsertedLargest` | `engine/statements.cpp:113-138` | inserting one more day keeps the window exactly the largest days seen, strictly descending |
| `Windows.LargestUnique` | `engine/statements.cpp:113-138` | a set of days has one window, so the order of insertions does not matter |
| `Windows.EvictedNeverReturns` | `engine/statements.cpp:129-131` | a day seen and no longer held is in no later window, whatever is scanned in between |
| `Windows.QuarterWindowStep` | `engine/statements.cpp:140-170` | one more fact keeps the four largest end days, each with its first latest-filed fact |
| `Windows.WindowExact` | `engine/statements.cpp:353-363` | after any scan the quarters are the four largest distinct usable end days in descending order, each with its first latest-filed fact |
| `Windows.AnchorDaysExact` | `engine/statements.cpp:690-698` | after any scan the anchors are the twelve largest distinct usable revenue end days in descending order |
| `Windows.WindowUnique` | `engine/statements.cpp:353-363` | only one window meets that description |
| `Selection.LatestOrderFreeExactly` | `engine/statements.cpp:445-470` | the answer is the same in every scan order exactly when there is no second eligible element that none is newer than |
| `Windows.WindowOrderFreeExactly` | `engine/statements.cpp:353-363` | the window is the same in every scan order exactly when none of the four latest usable days has two latest-filed facts |
| `Windows.WindowOrderFree` | `engine/statements.cpp:353-363` | when no two usable facts of a day tie on filing time the window is the same in every scan order |
| `Ttm.ChooseExactAnnualFlow` | `engine/statements.cpp:214-242` | finds the annual fact ending on the anchor that a first-maximum selection by filing time finds |
| `Ttm.ChooseQuarterTtmFlow` | `engine/statements.cpp:345-397` | finds a value exactly when the window has four quarters, the newest ends on the anchor and all are comparable to it; sums them and joins their flags, starts and filing times |
| `Ttm.ChooseYtdBridgeTtmFlow` | `engine/statements.cpp:244-343` | the triple loop returns the first latest-filed candidate of the whole search |
| `Ttm.LatestFlowTtm` | `engine/statements.cpp:399-420` | prefers a fiscal year, then four quarters, then the bridge |
| `Ttm.FlowExactly` | `engine/statements.cpp:399-420` | a trailing flow exists exactly when a fiscal year ends on the anchor, four comparable quarters do, or a bridge triple does; with a fiscal year it is the one filed last |
| `Ttm.LatestPoint` | `engine/statements.cpp:445-470` | the balance or share count of the latest period, filed last |
| `Ttm.BridgeFound` | `engine/statements.cpp:244-343` | the bridge finds a value exactly when an admissible current, annual and prior triple exists |
| `Ttm.BridgeOrigin` | `engine/statements.cpp:276-336` | the value is annual plus current less the first latest-filed matching prior of an admissible triple, and no other proposal was filed later overall |
| `TtmAccuracy.BridgeAccurate` | `engine/statements.cpp:190-193` | when facts sum a daily flow bounded by M the bridge is within 14 M of the flow since the prior period's end and exact when both gaps are zero; with true durations that window is 309 to 401 days, and 323 to 387 without gaps |
| `TtmAccuracy.BridgeFormula` | `engine/statements.cpp:318` | annual plus current less prior misses the flow since the prior period's end by at most M per day of gap, for any three periods that end in that order |
| `QuarterSpan.PeriodsExactly` | `engine/statements.cpp:376-391` | for any real periods in descending order the flows add up to the flow from the earliest start to the latest end, whatever the daily flow, exactly when each starts the day after the next older one ends |
| `QuarterSpan.QuartersExactly` | `engine/statements.cpp:365-391` | the four-quarter value is the sum of its period flows, and that sum is the flow from the reported start to the anchor, whatever the daily flow, exactly when the quarters are contiguous |
| `QuarterSpan.QuartersExact` | `engine/statements.cpp:376-391` | for measured facts four contiguous quarters give exactly the flow from the reported start to the anchor |
| `QuarterSpan.QuartersDuration` | `engine/core.cpp:84-86` | contiguous quarters with true durations span 280 to 440 days |
| `QuarterSpan.QuartersMayGap` | `engine/statements.cpp:365-372` | comparable quarters with a year missing between them are accepted, spanning more than 440 days |
| `BridgeOrder.OrderFreeExactly` | `engine/statements.cpp:321-336` | the bridge is the same in every scan order exactly when all best triples, those with a latest-filed prior and completed last, give one point |
| `BridgeOrder.BestWins` | `engine/statements.cpp:321-336` | every best triple wins some scan order of the same facts |
| `BridgeOrder.AmendedYearMayLose` | `engine/statements.cpp:321-336` | a fiscal year amended after its original is ignored or used depending on scan order alone |
| `Statements.BuildStatementForAnchor` | `engine/statements.cpp:508-596` | builds the statement of its eight selections, or none |
| `Statements.BuildStatementSnapshots` | `engine/statements.cpp:598-720` | a list comes back exactly for inputs within the fact, security and statement limits with nonzero ids, and holds the statements of every investable security, in order |
| `Statements.SecurityStatementsExact` | `engine/statements.cpp:690-712` | a security gets exactly the buildable statements of its twelve latest revenue days, newest first, at most twelve |
| `Statements.BuiltExactly` | `engine/statements.cpp:541-595` | a statement is built exactly when revenue, net income or operating cash flow was found |
| `Statements.LowConfidenceExactly` | `engine/statements.cpp:545-566` | the low-confidence flag is absent exactly when revenue and shares are positive, both cash flows are present and no contributing value carries a low-confidence observation flag |
| `Statements.FlagExactly` | `engine/statements.cpp:172-188` | a statement carries each of its eleven flags exactly when that flag is due: a needed value missing or not positive, negative free cash flow, or a contributing value with an observation flag of its kind |
| `Statements.FlowSourced` | `engine/statements.cpp:203-420` | every selected value comes from usable facts of its own security and metric |
| `Statements.FlagsInherited` | `engine/statements.cpp:329-331` | a derived value carries every flag of every observation behind it |
| `Valuation.ChooseLatestTwoTtmStatements` | `engine/value.cpp:27-91` | the one pass ends with the declarative pair |
| `Valuation.PairIsFirstMaxima` | `engine/value.cpp:27-91` | for every scan order latest is the first maximum by period end then filing among eligible statements, and previous the same maximum over strictly earlier ends |
| `Valuation.PreviousExactly` | `engine/value.cpp:62-88` | a previous statement exists exactly when two eligible statements end on different days |
| `Valuation.LatestTwoStep` | `engine/value.cpp:62-88` | one more statement moves the declarative pair exactly as one turn of the scan does |
| `Valuation.DcfEquityValueUsd` | `engine/value.cpp:134-154` | computes the five discounted flows and the discounted horizon value less net debt |
| `Valuation.RollsBack` | `engine/value.cpp:134-154` | discounting each flow from its own year equals rolling the horizon value back one year at a time, for any horizon |
| `Valuation.EquityRollsBack` | `engine/value.cpp:134-154` | the equity value is the rolled-back enterprise value less net debt |
| `Valuation.EquityIsAverage` | `engine/value.cpp:218-239` | the normalised value lies between the worst and the best scenario |
| `Valuation.ValueSecurity` | `engine/value.cpp:188-260` | a security that cannot be valued is reported as such; otherwise it fails exactly on an invalid scenario and is else valued at the weighted average |
| `Valuation.SufficientExactly` | `engine/value.cpp:156-186` | confidence reaches one half for exactly the listed combinations of flags; low confidence or missing operating cash flow never does, and two major doubts never do |
| `Valuation.ScoreExactly` | `engine/value.cpp:262-298` | the score is between 0 and 2 and positive exactly when the expected return is positive, the confidence at least one half and the security liquid |
| `Valuation.PositiveScoreMeans` | `engine/value.cpp:188-298` | a positive score was earned on a usable latest statement with tolerable flags |
| `Allocation.CurrentWeightForSecurity` | `engine/core.cpp:128-140` | the weight of the first position in the security, zero without one |
| `Allocation.Allocate` | `engine/value.cpp:312-355` | fills one target per security and the intents worth an order, in order, in place |
| `Allocation.GrossBound` | `engine/value.cpp:326-333` | targets never add up to more than the gross exposure, and when scores pass the threshold they add up to exactly it if and only if no name cap binds |
| `Allocation.TargetsWithinExposure` | `engine/value.cpp:326-333` | the same for the target array, each target between zero and the name cap |
| `Allocation.IntentLands` | `engine/value.cpp:335-350` | filling an intent lands exactly on its target; a security without one is off by less than the minimum order |
| `Allocation.IntentsExactly` | `engine/value.cpp:335-350` | the intents are exactly those of the targets worth an order |
| `ValuationPlan.ValidateInputs` | `engine/value.cpp:357-442` | accepts exactly the inputs within resource limits with nonzero ids, sane positions, budget and scenarios |
| `ValuationPlan.BuildValuationPlan` | `engine/value.cpp:446-535` | a plan comes back exactly for valid inputs and is the specified plan |
| `ValuationPlan.ValuationExposure` | `engine/value.cpp:300-355` | every valid call's targets respect name cap and gross exposure, exactly when no cap binds |
| `ValuationPlan.SnapshotClean` | `engine/statements.cpp:508-596` | a snapshot without the low-confidence flag was built from clean observations only |
| `ValuationPlan.Abstains` | `engine/value.cpp:326-333` | over all observation sets: a security with a positive target was valued on a built statement with positive revenue and shares, both cash flows, and no low-confidence observation behind any of its values |
| `Growth.MetricPair.ChooseLatestTwo` | `engine/growth.cpp:10-127` | the fields end as the scan function says |
| `Growth.LatestIsMaximum` | `engine/growth.cpp:61-63` | in every scan order latest is the first lexicographic maximum of end day and filing time |
| `Growth.PreviousIsEarlier` | `engine/growth.cpp:66-123` | in every scan order previous is an eligible fact of a strictly earlier day, and the pair's flags cover both facts |
| `Growth.PairComparable` | `engine/growth.cpp:66-123` | in every scan order, when facts of a day share their shape, previous is comparable to latest |
| `Growth.OrderedScan` | `engine/growth.cpp:66-123` | in the loader's order previous is the newest filing of the preceding period, kept exactly when comparable to the first fact of the latest day |
| `Growth.PairExact` | `cli/src/fa_core.rs:596-605` | in the loader's order, when facts of a day share their shape, previous is the newest filing of the preceding period exactly when comparable to latest |
| `Growth.ComparableExactly` | `engine/growth.cpp:66-96` | without that hypothesis the pair is comparable exactly when the preceding filing is rejected by the latest day's first fact or accepted by its last |
| `Growth.AmendmentKeepsPrevious` | `engine/growth.cpp:66-96` | an ordered input whose previous period is not comparable to its latest |
| `GrowthOrder.PreviousOrderFreeExactly` | `engine/growth.cpp:66-123` | when facts of a day share their shape, the previous value and end are the same in every scan order exactly when no earlier eligible fact is comparable to the latest day, or the immediately preceding eligible day is and all its filings report one value |
| `Growth.PreviousDependsOnOrder` | `engine/growth.cpp:97-123` | two orders of the same facts with different previous periods |
| `GrowthPlan.BuildPortfolioPlan` | `engine/growth.cpp:222-386` | a plan comes back exactly for valid inputs and is the specified plan |
| `GrowthPlan.ForecastBounded` | `engine/growth.cpp:305-345` | a forecast stays within the growth limit with a confidence of at most 0.8 |
| `GrowthPlan.ForecastSound` | `engine/growth.cpp:264-348` | when facts of a day share their shape, only a security with two comparable periods of revenue or of earnings is chosen |
| `GrowthPlan.GrowthExposure` | `engine/growth.cpp:350-378` | with a nonnegative return threshold targets respect name cap and gross exposure, exactly when no cap binds |
| `GrowthPlan.GrossBoundExactly` | `engine/growth.cpp:334-361` | the gross bound holds for all inputs if and only if the return threshold is not negative |
| `Gate.FindSecurity` | `engine/core.cpp:142-154` | the first listed security with the id, none exactly when there is none |
| `Gate.CheckRiskLimits` | `engine/gate.cpp:7-132` | within the resource limits writes one decision per intent, in place |
| `Gate.ApprovedExactly` | `engine/gate.cpp:77-126` | an order is approved exactly when reconciliation is fresh, its security is listed and it meets every limit, and, if a buy, all buys of the batch together fit the cash |
| `Gate.ApprovedBuysFitCash` | `engine/gate.cpp:52-123` | the approved buys of one call never exceed its cash, nor zero when cash is negative |
| `Tables.RunSelect` | `cli/src/fa_core.rs:696-733` | returns the matching rows oldest first, cut at the limit; a negative limit is none |
| `Tables.SelectSound` | `cli/src/main.rs:2459-2491` | a query returns distinct rows of the table that meet its condition, oldest first, and all of them without a limit |
| `Tables.SelectOldest` | `cli/src/main.rs:2459-2465` | a limit leaves a matching row out only when it is reached, and never one older than a row it keeps |
| `Tables.InsertAll` | `schema.sql:498-540` | a transaction inserts all its rows, or none exactly when a key is taken |
| `Ledger.OrderLedger.PersistIntents` | `cli/src/fa_core.rs:749-761` | adds one intent per order, or nothing |
| `Ledger.OrderLedger.OpGate` | `cli/src/main.rs:2402-2443` | judges exactly the undecided intents of the run and adds one decision each, or changes nothing |
| `Ledger.OrderLedger.OpStage` | `cli/src/main.rs:2449-2502` | in a staging mode stages the oldest approved unstaged decisions up to the limit, or changes nothing |
| `Ledger.OrderLedger.OpSend` | `cli/src/main.rs:2513-2552` | with the mock adapter, a submit mode and a fresh reconciliation submits the oldest unsent staged orders up to the limit, or changes nothing |
| `LedgerRuns.StepSound` | `cli/src/main.rs:2402-2552` | every step, failed or not, keeps one decision per intent, one staging per decision, one submission per staged order and all cross references, and only adds rows |
| `LedgerRuns.RunSound` | `cli/src/main.rs:2402-2552` | the same in every state of every run |
| `LedgerRuns.RunExtends` | `cli/src/main.rs:2402-2552` | along a run no row is ever changed or removed |
| `LedgerRuns.SubmissionTraced` | `cli/src/main.rs:2449-2552` | every submitted order traces back to an approved intent with the same security, side and notional |
| `LedgerRuns.BatchWithinCash` | `cli/src/main.rs:2402-2443` | whatever follows a gate call, the buys ever submitted from its batch fit in that call's nonnegative cash |
| `LedgerRuns.RunWithinCash` | `engine/gate.cpp:52-123` | the same for every gate step of every run and every later state |
| `LedgerOverlap.CurrentGate` | `cli/src/main.rs:2406-2443` | a gate call whose selection is still the current one is the atomic step of the runs |
| `LedgerOverlap.CurrentStage` | `cli/src/main.rs:2459-2502` | so is a stage call, as the intents it looks up never change |
| `LedgerOverlap.CurrentSend` | `cli/src/main.rs:2513-2552` | and a send, under the same guards |
| `LedgerOverlap.StaleGateExactly` | `cli/src/main.rs:2406-2443` | a gate call that commits leaves the books sound exactly when no intent it selected was decided since it read |
| `LedgerOverlap.StaleStageExactly` | `cli/src/main.rs:2459-2502` | a stage call that commits leaves the books sound exactly when no decision it selected was staged since it read |
| `LedgerOverlap.StaleSendExactly` | `cli/src/main.rs:2529-2552` | a send that commits leaves the books sound exactly when no order it selected was submitted since it read |
| `LedgerOverlap.OverlappingGatesDecideTwice` | `cli/src/main.rs:2406-2443` | two gate calls that both read before either commits leave one intent with two decisions |
| `LedgerRuns.CoveredTotal` | `engine/gate.cpp:52-63` | amounts under distinct keys, each covered by an entry of a second list, add up to no more than that list |

## Left out

- IEEE rounding, NaN and infinity: doubles are reals, so finiteness guards always pass; fixed integer widths and ABI version fields are not modelled either.
- SHA-256 and UUID generation: digests and identifiers are parameters; results that need it assume a digest without collisions, and insertion fails on a repeated identifier.
- SQLite: transactions are atomic steps, `ORDER BY` breaks ties by insertion order, and concurrent connections interleave only between steps.
- The reason strings, diagnostics and appended event log of the engine and the ledger.
- The flow and JSON parsers beyond the two lexers, and reading the recorded spec back: replay is given the spec that ran.
- The registry tables: product types, algorithms and resources are the bootstrap contracts written as functions; an unlisted one is unknown.
- Run-id extraction from command output and storage references of domain outputs are parameters of a run.
- HTTP, SEC, Databento and Anthropic clients, `server.go`, notifications, the daemon's process loop and flags, heartbeat and cursor tables.
- XBRL parsing and the derivation of facts from filings: facts are inputs, and their measured meaning is a hypothesis where it matters.
- Reports, CLI help, schema migration, seed data and feature rows: they would only add easy members.
- Null pointers and allocation failures of the C interface.
- Growth.PairComparable: assumes that facts ending on one day share kind, semantics, basis, dimensions and duration; `Growth.ComparableExactly` covers the rest in the loader's order.
- GrowthPlan.ForecastSound: assumes the same, as a same-day amendment on another basis may leave an incomparable pair.
- WorkflowRun.RecordThenReplay: assumes no repeated inputs and no digest collisions; for runs that found products in the store it also assumes that nodes plan no common keys, that stored command outputs carry their digests and, to decide before the run, that the run id is new.
- QueueRuns.AuthorityAtMostOnce: assumes workers that finish or crash within their leases and fresh run ids, as completions are unfenced.
- QuarterSpan.QuartersExact: assumes contiguous quarters, which the code does not check; `QuarterSpan.QuartersExactly` shows they are needed.
