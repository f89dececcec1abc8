# OpenFGA in Rust: a Dafny model of its hard core

This project models four parts of the server and proves what they promise for every input, every
interleaving and every reachable state. `dafny verify dfyconfig.toml` checks all of it.

**The Check scheduler.** A Check asks whether a subject has a relation to an object. Its meaning is a
short recursive, three-valued function on object, relation, subject and branch path
(`Semantics.Eval`): a key already on its branch is denied, a branch longer than the depth limit and a
failed condition are unknown. The program instead runs an arena of work slots with a ready queue,
reads that finish in any order, partial reducers, a memo table and five budgets (`Scheduling`,
`WorkGraph`, `Reducers`). Every answer is the meaning; an error says that the meaning is unknown or
that something got in the way. Whenever no subtrahend depends back on its own relation, the meaning is
membership in the perfect model of the rewrites and the tuples, the least fixed point taken layer by
layer (`FixedPoint`); the pruning by reachability tables, whose construction is modelled too
(`Reachability`), never changes a decided answer (`Pruning`).

**The caches.** One generation counter invalidates every mutable entry. Commits, advances, captures,
reads, insertions, evictions, lookups, changelog polls, flushes, registrations and clock ticks are
atomic steps that interleave freely (`CacheProtocol`, `Controller`). Storage is a log of changes; a
cached value is known by the log prefixes its reads saw. The latest-model alias is computed under a
per-store lock (`ModelAlias`).

**Sharing work.** Simultaneous identical Checks share one oracle run (`Coalescing`), concurrent roots
share work meters (`WorkMeter`), and a batch runs many roots with bounded concurrency (`BatchCheck`).

**Conditions and keys.** A worklist bounds a parsed condition (`ShapeCheck`), a lowering pass flattens
it into an arena (`ConditionCompiler`, `Lowering`, `ConditionMeaning`) under a gradual type join
(`ConditionTypes`), and decides a typing judgement that is stated on its own over tables of signatures
(`ConditionTyping`). Cache keys hash canonical byte streams (`Fingerprints`, `CacheKeys`,
`DefinitionKeys`), and compiled conditions are shared under such a key (`CompilationCache`).

How the model stands to the program:

- A run is *hindered* once cancellation, a deadline, a storage failure, a spent budget or a meter
  refusal has reached it. Rows, condition verdicts and the model are fixed during one root.
- The scheduler's reducers live inside the slots as values; the stand-alone `Reducer` class is proved
  equal to the same specification.
- `is_active` skips the queried slot itself, as in the program. So a direct relation whose first row
  allows at once, under a parent that keeps waiting, can meet a second row that answers at once and
  end the run with `parent_reducer_state_invalid`. That such errors never occur is therefore false.
  Exactly when it happens is proved where it happens: an unhindered `FinishRead` fails if and only if
  the read is `FatalRead` beforehand, that is, the rows overlap for the subject and the slot stays
  wanted after allowing. For whole runs there is a bound on each side: an unhindered `Drive` fails so
  only if rows overlap for the root's own subject in a direct operand of an intersection or a direct
  base of a difference, and it always does if the root's relation is an intersection of direct
  operands whose rows all overlap (`FatalRoot`). `TwoRowsUnderAnIntersection` is a query of that class
  whose meaning is true.
- The shared meter answers each charge of a root by granting or refusing it, as other roots leave it
  room. Each root keeps the ledger of its grants and refusals; `WorkMeter` runs the ledgers of
  concurrent roots against the three shared counters. A read task's charge for stored rows comes before
  the root's own count and is placed at the task's end.
- Where a comprehension variable has no value at run time (a second variable over a list), a local
  name falls through to an outer scope; expression and arena do the same.

## Model

| member | source | states |
|---|---|---|
| `Reducers.Reducer.constructor` | crates/openfga-check/src/evaluator.rs:852-859 | a new reducer waits for every operand |
| `Reducers.Reducer.Accept` | crates/openfga-check/src/evaluator.rs:861-879 | new state and result are the accepting step of the specification, with the three internal errors |
| `Reducers.Reducer.Reduce` | crates/openfga-check/src/evaluator.rs:881-930 | early decision, waiting, lowest error or final decision, as specified per connective |
| `Reducers.Reducer.ReduceDifference` | crates/openfga-check/src/evaluator.rs:932-955 | a denied base or an allowed subtrahend denies at once; otherwise both are awaited |
| `Reducers.Reducer.Take` | crates/openfga-check/src/evaluator.rs:957-962 | an arrived operand is handed out once |
| `Reducers.Reducer.TakeFirstError` | crates/openfga-check/src/evaluator.rs:964-977 | the error of the lowest failed operand is taken |
| `Reducers.ReduceIsRight` | crates/openfga-check/src/evaluator.rs:881-955 | a reduction never fails internally, and what it decides is the strong-Kleene connective of all operands, missing ones included |
| `Reducers.ReduceKeepsErrors` | crates/openfga-check/src/evaluator.rs:964-977 | a reduction's error is one of its operands' errors |
| `Reducers.AcceptIsExact` | crates/openfga-check/src/evaluator.rs:861-955 | accepting an awaited operand never fails, keeps the reducer in order, and a final outcome is exactly the connective |
| `Reducers.EarlyDecisionIsFinal` | crates/openfga-check/src/evaluator.rs:888-955 | an early decision stays right however missing and failed operands resolve |
| `Reducers.ReduceIsSettled` | crates/openfga-check/src/evaluator.rs:881-955 | a decided reduction is the outcome of a reducer that knew all operands at once |
| `Reducers.FeedSettles` | crates/openfga-check/src/evaluator.rs:861-955 | delivering the missing operands in any order ends in that outcome |
| `Reducers.ArrivalOrderIsIrrelevant` | crates/openfga-check/src/evaluator.rs:843-987 | for every operand count and arrival order the outcome is the same, including which error wins |
| `CompiledModels.AdmittedIff` | crates/openfga-check/src/evaluator.rs:1931-1995 | on every compiled model a row is admitted exactly when some restriction names its subject type, its kind of subject (object, wildcard, or that very userset relation) and its condition: none for an unconditional row, that very condition for a conditional one |
| `CompiledModels.WildcardCovers` | crates/openfga-check/src/evaluator.rs:1997-2003 | a wildcard row covers a queried subject exactly when that is an object of the wildcard's type; never a userset or a wildcard |
| `Semantics.RowClassResolves` | crates/openfga-check/src/evaluator.rs:1931-1963 | on a compiled model admitting a row never fails, a row is admitted exactly when some restriction admits it, and then its class is its subject's own |
| `FixedPoint.PerfectSettles` | crates/openfga-check/src/evaluator.rs:1284-1321 | the layers of the perfect model are settled one by one: a key belongs to a partial model exactly when its own layer is below and holds it |
| `FixedPoint.StageIsForced` | crates/openfga-check/src/evaluator.rs:1284-1321 | every finite unrolling of a layer's rewrite rules stays inside every set closed over the lower layers |
| `FixedPoint.ForcedIsStaged` | crates/openfga-check/src/evaluator.rs:1284-1321 | every member of a layer's least closed set appears in some finite unrolling |
| `FixedPoint.NodeSound` | crates/openfga-check/src/evaluator.rs:1284-1321 | a rewrite node allowed on a branch holds: its premises are known and its denied subtrahends are settled as absent |
| `FixedPoint.NodeComplete` | crates/openfga-check/src/evaluator.rs:1284-1321 | a rewrite node that holds is not denied on a branch, subtrahends included |
| `FixedPoint.AllowedIsForced` | crates/openfga-check/src/evaluator.rs:1221-1321 | a key allowed on a branch that stays in its layer and above is in every closed set of the layer |
| `FixedPoint.StagedIsNotFalse` | crates/openfga-check/src/evaluator.rs:1239-1242 | a key of the perfect model is never denied from a branch of keys derived later than it, so cycle denial loses nothing |
| `FixedPoint.CycleDenialIsPerfectModel` | crates/openfga-check/src/evaluator.rs:1221-1321 | on every model whose subtrahends never depend back on their own relation, a decided evaluation from the empty path allows a key if and only if the perfect model holds it, cyclic keys included |
| `FixedPoint.CycleDenialIsLeastFixedPoint` | crates/openfga-check/src/evaluator.rs:1221-1282 | on difference-free models that is the least set closed under rewrites and tuples |
| `FixedPoint.KeyIsDecided` | crates/openfga-check/src/evaluator.rs:1221-1282 | with evaluable conditions and a depth limit of at least the number of keys, evaluation is never unknown |
| `FixedPoint.EvaluationIsPerfectModel` | crates/openfga-check/src/evaluator.rs:1221-1321 | under those bounds the evaluation is exactly membership in the perfect model, and in the least fixed point on difference-free models |
| `FixedPoint.ConditionIsRead` | crates/openfga-check/src/evaluator.rs:1729-1802 | the value evaluation gives a row's condition is the one every reading of the verdicts gives it: true without a condition, else what the condition evaluated to |
| `Pruning.PrunedKeyIsNotTrue` | crates/openfga-check/src/evaluator.rs:1252-1261 | a key whose subject type cannot reach its relation never evaluates to true without the pruning |
| `Pruning.PruningRefinesKey` | crates/openfga-check/src/evaluator.rs:1252-1261 | denying unreachable keys keeps every decided answer, differences included |
| `Reachability.Round` | crates/openfga-model/src/graph.rs:219-243 | one in-place pass moves facts along every edge, adds nothing a closed table lacks, and reports whether it changed anything |
| `Reachability.SpreadsOrSettles` | crates/openfga-model/src/graph.rs:216-244 | a pass settles a fact or gives it to one more relation |
| `Reachability.Propagate` | crates/openfga-model/src/graph.rs:209-245 | the bound of one more pass than relations never cuts the computation short: the result is the least closed table above the start |
| `Reachability.RecordRestrictions` | crates/openfga-model/src/graph.rs:43-72 | exactly the types, wildcards and userset edges of the restrictions are added |
| `Reachability.RecordNode` | crates/openfga-model/src/graph.rs:39-107 | exactly what one node demands is added |
| `Reachability.Walk` | crates/openfga-model/src/graph.rs:32-113 | the stack walk finds exactly what the whole rewrite demands, shared nodes visited once |
| `Reachability.BuildTables` | crates/openfga-model/src/graph.rs:20-128 | the tables are closed under the rewrites, as Check relies on, and are the least such tables |
| `WorkGraph.SettleIsSound` | crates/openfga-check/src/evaluator.rs:1868-1894 | completing a slot with an exact outcome keeps the graph in order, never finds a parent in a wrong state or an operand answered twice, and hands the parent an exact outcome |
| `WorkGraph.SomeoneWorks` | crates/openfga-check/src/evaluator.rs:1135-1140 | below every live unfinished slot some slot is queued or reading |
| `WorkGraph.Push` | crates/openfga-check/src/evaluator.rs:1193-1200 | a new child answers an operand nobody else answers |
| `WorkGraph.Await` | crates/openfga-check/src/evaluator.rs:1441-1468 | a slot that starts to wait for operands keeps the graph in order |
| `WorkGraph.DeliverPartial` | crates/openfga-check/src/evaluator.rs:1880-1890 | an operand that does not settle its parent keeps the graph in order |
| `WorkGraph.DeliverFinal` | crates/openfga-check/src/evaluator.rs:1880-1890 | an operand that settles its parent makes the parent the slot in flux |
| `WorkGraph.Close` | crates/openfga-check/src/evaluator.rs:1804-1832 | when scheduling ends, every operand is scheduled or nobody waits for the slot |
| `WorkGraph.SubjectIsTheRoots` | crates/openfga-check/src/evaluator.rs:1248-1395 | every piece of work asks about the root's subject |
| `WorkGraph.WaitingParentOutlasts` | crates/openfga-check/src/evaluator.rs:881-955 | only an intersection with another operand, or a difference for its base, keeps waiting after a rewrite operand allows |
| `Scheduling.Scheduler.constructor` | crates/openfga-check/src/evaluator.rs:1062-1093 | a fresh scheduler is within every budget and unhindered |
| `Scheduling.Scheduler.CheckContext` | crates/openfga-check/src/evaluator.rs:1172-1174 | a cancelled or late operation is reported and hinders the run |
| `Scheduling.Scheduler.ChargeDispatch` | crates/openfga-check/src/evaluator.rs:1181-1194 | a dispatch is charged to the root first and then to the meter; attempts within the limit are slots or meter refusals, and a metered root has one slot per granted dispatch |
| `Scheduling.Scheduler.Schedule` | crates/openfga-check/src/evaluator.rs:1176-1204 | one slot and one queue entry, or a refusal that creates nothing; slots stay within the dispatch limit |
| `Scheduling.Scheduler.IsActive` | crates/openfga-check/src/evaluator.rs:1896-1909 | true exactly when no proper ancestor is completed; the walk never fails |
| `Scheduling.Scheduler.CompleteOne` | crates/openfga-check/src/evaluator.rs:1868-1894 | one completion is one settlement: the slot is done, its memo entry is exact, its parent is next only when it settles |
| `Scheduling.Scheduler.Complete` | crates/openfga-check/src/evaluator.rs:1868-1894 | completion never fails, restores the whole invariant and decreases the measure |
| `Scheduling.Scheduler.AcceptOperand` | crates/openfga-check/src/evaluator.rs:1852-1866 | succeeds exactly when the slot still waits, with the reducer's specified state; otherwise the reducer-state error |
| `Scheduling.Scheduler.ScheduleChildOrError` | crates/openfga-check/src/evaluator.rs:1834-1850 | the operand gets a slot or the budget's error as its answer; without hindrance nothing but that slot changes |
| `Scheduling.Scheduler.StartRewriteChildren` | crates/openfga-check/src/evaluator.rs:1441-1468 | union, intersection and difference operands are started in order while the slot is wanted |
| `Scheduling.Scheduler.ProcessSemantic` | crates/openfga-check/src/evaluator.rs:1221-1282 | depth limit, memo, cycle, unknown type, unreachable or expansion, each with the exact outcome |
| `Scheduling.Scheduler.MemoHitIsExact` | crates/openfga-check/src/evaluator.rs:1231-1237 | in every reachable state depth is the size of the path, so a memo hit is what evaluating the item again gives |
| `Scheduling.Scheduler.ProcessComputed` | crates/openfga-check/src/evaluator.rs:1347-1369 | a computed relation waits for the same object's other relation, one level deeper |
| `Scheduling.Scheduler.ProcessDifference` | crates/openfga-check/src/evaluator.rs:1410-1439 | base and subtrahend become operands zero and one |
| `Scheduling.Scheduler.CompleteWaiting` | crates/openfga-check/src/evaluator.rs:1868-1894 | completing a slot with its exact value finishes that slot alone when the parent keeps waiting on the answer, and finishes the parent too when it does not |
| `Scheduling.Scheduler.ScheduleRewrites` | crates/openfga-check/src/evaluator.rs:1451-1467 | every operand node is scheduled unless the slot stops being wanted; a failure means the run was hindered |
| `Scheduling.Scheduler.DeferForReadCapacity` | crates/openfga-check/src/evaluator.rs:1397-1408 | with all reads taken the slot goes back to the queue unchanged |
| `Scheduling.Scheduler.ChargeRead` | crates/openfga-check/src/evaluator.rs:1477-1491 | a query is charged to the root first and then to the meter; a metered root begins one read per granted query |
| `Scheduling.Scheduler.StartRead` | crates/openfga-check/src/evaluator.rs:1470-1541 | a charged read puts the slot in flight; an exhausted or refused charge answers it with an error; the relation is always found |
| `Scheduling.Scheduler.ProcessRewrite` | crates/openfga-check/src/evaluator.rs:1284-1395 | each rewrite node continues with work whose meaning is the node's |
| `Scheduling.Scheduler.Process` | crates/openfga-check/src/evaluator.rs:1206-1219 | a queued slot nobody wants is dropped, any other is processed; the queued state is always valid |
| `Scheduling.Scheduler.FetchRows` | crates/openfga-check/src/evaluator.rs:1517-1537 | a read task fetches the stored rows and charges them to the meter before the root counts them; it hands them on only if granted |
| `Scheduling.Scheduler.ChargeTupleItems` | crates/openfga-check/src/evaluator.rs:1592-1614 | rows are handed on only within the tuple-item limit, and by a metered root only as many as it was granted |
| `Scheduling.Scheduler.EvaluateTupleCondition` | crates/openfga-check/src/evaluator.rs:1729-1802 | an unconditional row is met; a conditional one is met or unmet as its condition evaluates; an error is the condition's own failure or means the run was hindered |
| `Scheduling.Scheduler.CollectDirect` | crates/openfga-check/src/evaluator.rs:1616-1673 | the candidates of direct rows have exactly the rows' values, in row order; without hindrance two of them clash exactly when the rows overlap |
| `Scheduling.ClashIsOverlap` | crates/openfga-check/src/evaluator.rs:1616-1673 | candidates clash if and only if a row allows the subject at once and a later row also answers at once |
| `Scheduling.Scheduler.CollectTtu` | crates/openfga-check/src/evaluator.rs:1675-1727 | the candidates of tuple-to-userset rows have exactly the rows' joint value |
| `Scheduling.Scheduler.StartAll` | crates/openfga-check/src/evaluator.rs:1816-1831 | starting candidates keeps the invariant, and without hindrance it fails if and only if beforehand the slot is wanted, one candidate allows at once, a later one also answers at once, and the parent keeps waiting after the slot's answer |
| `Scheduling.ImmediateTrace` | crates/openfga-check/src/evaluator.rs:1818-1825 | the first candidate that allows completes the slot, and from then on the slot is wanted exactly when its parent keeps waiting |
| `Scheduling.StopTrace` | crates/openfga-check/src/evaluator.rs:1818-1831 | the loop ends or stops early only outside the fatal case |
| `Scheduling.Scheduler.StartCandidates` | crates/openfga-check/src/evaluator.rs:1804-1832 | no candidates deny; otherwise the slot waits for them as a union; an unhindered start fails exactly on clashing candidates of a slot that stays wanted |
| `Scheduling.Scheduler.FinishRead` | crates/openfga-check/src/evaluator.rs:1543-1590 | a finished read always finds its slot reading, and continues it or drops it; an unhindered one fails if and only if the read was fatal beforehand |
| `Scheduling.FatalReadOverlaps` | crates/openfga-check/src/evaluator.rs:1804-1864 | a fatal read needs rows that overlap for the root's subject in a direct operand of an intersection or a direct base of a difference |
| `Scheduling.Scheduler.NeverStalls` | crates/openfga-check/src/evaluator.rs:1135-1140 | while the root has no result some slot is ready or some read is in flight |
| `Scheduling.Scheduler.ProcessReady` | crates/openfga-check/src/evaluator.rs:1120-1131 | one pass over the ready queue decreases the measure or leaves a read in flight |
| `Scheduling.Scheduler.Pass` | crates/openfga-check/src/evaluator.rs:1120-1160 | one turn of the loop gives the result, decreases the measure or reports an explained error |
| `Scheduling.Scheduler.JoinNext` | crates/openfga-check/src/evaluator.rs:1150-1159 | any in-flight read may finish next, with rows, an error or a failed task |
| `Scheduling.WorkOfFatalRoot` | crates/openfga-check/src/evaluator.rs:1221-1395 | until a read finishes, a query of the fatal class has no work but its root, its intersection and the direct operands |
| `Scheduling.Scheduler.DoomedReads` | crates/openfga-check/src/evaluator.rs:1804-1864 | every read of such a query is fatal, whichever finishes first |
| `Scheduling.Scheduler.Drive` | crates/openfga-check/src/evaluator.rs:1115-1165 | for every order and every budget: an answer is the branch-path evaluation; an error means it is unknown, the run was hindered, or rows overlapped for the root's subject under a connective that waits on; a query of the fatal class always ends in that error; the exits for a stalled or inconsistent graph are unreachable, all limits hold, a metered root did what it was granted, and the loop ends |
| `Scheduling.Scheduler.AbortReads` | crates/openfga-check/src/evaluator.rs:1167-1170 | reads still in flight are dropped; their tasks may have charged the meter, and the accounts still hold |
| `RowOverlap.TwoRowsUnderAnIntersection` | crates/openfga-check/src/evaluator.rs:1804-1864 | with `viewer: [user, user:*] and [user, user:*]` and rows for one user and for all users, the meaning is true and the query is of the fatal class |
| `CheckRoot.Check` | crates/openfga-check/src/evaluator.rs:635-669 | the same from the outside for answers, errors and limits, plus perfect-model membership under every stratification, least-fixed-point membership on difference-free models, and agreement with unpruned evaluation |
| `BatchCheck.ItemOverridesBase` | crates/openfga-check/src/evaluator.rs:266-272 | in the merged context an item tuple replaces the base tuple of its key, and nothing else changes |
| `BatchCheck.MergeTuples` | crates/openfga-check/src/evaluator.rs:558-567 | two tuples are merged exactly when object, relation and subject are the same; of each such group the last one given stays, and nothing else appears |
| `BatchCheck.KeyContext` | crates/openfga-check/src/evaluator.rs:261-274 | the cache key covers the merged context in key order: exactly the last tuple of every object, relation and subject, each once |
| `BatchCheck.MergeKeepsLast` | crates/openfga-check/src/evaluator.rs:558-567 | a tuple survives the merge if and only if no later one has its object, relation and subject |
| `BatchCheck.MergedIsLast` | crates/openfga-check/src/evaluator.rs:261-274 | the merged context holds exactly the surviving tuples, no two with the same object, relation and subject |
| `BatchCheck.OfIsExact` | crates/openfga-check/src/evaluator.rs:568-582 | the tuples found for an object and relation are exactly the given ones of that object and relation |
| `BatchCheck.ContextualIndex` | crates/openfga-check/src/evaluator.rs:558-576 | for every object and relation the evaluation index holds exactly the merged context's tuples, in the same order |
| `BatchCheck.PrepareBatch` | crates/openfga-check/src/evaluator.rs:403-454 | every item becomes its own job, or an error result when its condition context is invalid |
| `BatchCheck.RunJob` | crates/openfga-check/src/evaluator.rs:475-491 | a job's result carries its correlation identifier and its own root's outcome, answer or error |
| `BatchCheck.RunBatch` | crates/openfga-check/src/evaluator.rs:456-536 | for every completion order and concurrency limit: one result per item, in request order, each the outcome of its own item's root, an error only for one of the root's reasons; a result is never missing |
| `WorkMeter.SharedCounter.Charge` | crates/openfga-check/src/budget.rs:148-155 | an amount is taken exactly when it fits under the ceiling, otherwise nothing is taken |
| `WorkMeter.WorkIsMetered` | crates/openfga-check/src/budget.rs:93-155 | for every interleaving of charges: the slots all roots created are exactly the dispatches used, the reads they began exactly the queries used, the rows they handed on at most the items used, and no ceiling is passed |
| `CacheProtocol.StepKeepsInv` | crates/openfga-cache/src/decision.rs:215-279 | every atomic step keeps the invariant that whatever is stamped g read at least what was committed when the counter became g |
| `CacheProtocol.HitIsStampedLater` | crates/openfga-cache/src/decision.rs:220-252 | a lookup that has not read the counter again can only return an entry stamped at the current generation or later |
| `CacheProtocol.AcknowledgedWritesAreSeen` | crates/openfga-cache/src/tuple.rs:204-255 | in every run a hit reflects every write acknowledged before it, through both cache layers: all its reads came after that write's advance |
| `CacheProtocol.DeadEntriesStayDead` | crates/openfga-cache/src/invalidation.rs:27-35 | an entry an advance has passed is never returned again |
| `CacheProtocol.UndisturbedLookup` | crates/openfga-cache/src/tuple.rs:204-230 | a lookup nothing interrupts accepts exactly the current entry stamped with the current generation |
| `CacheProtocol.ComputedIsCached` | crates/openfga-cache/src/decision.rs:254-279 | a computation nothing interrupts can end in an entry stamped with the generation it began at, with what it read behind it |
| `CacheProtocol.DerivedIsCached` | crates/openfga-cache/src/decision.rs:254-279 | so can one that used a lower cache's hit, with the hit's reads behind it too |
| `CacheProtocol.CachedIsFound` | crates/openfga-cache/src/decision.rs:220-252 | a current entry can be looked up and returned |
| `CacheProtocol.WriteIsAcknowledged` | crates/openfga-cache/src/tuple.rs:524-541 | a committed write can always be acknowledged: at once if it changed nothing, else after an advance that lies after its rows |
| `CacheProtocol.HitsReadOneGeneration` | crates/openfga-cache/src/decision.rs:254-279 | in every run all reads behind a hit, those of the hits it was computed from included, were made while the counter stood at the entry's watermark: none before it got there, none after it went on |
| `CacheProtocol.JudgedAtOneGeneration` | crates/openfga-cache/src/decision.rs:229-252 | a lookup finds an entry sound only if the counter was the same at both of its looks |
| `Controller.ValidateChanges` | crates/openfga-cache/src/controller.rs:868-881 | a page is accepted exactly when its rows are the store's own and strictly increase past the last one seen |
| `Controller.ExecKeeps` | crates/openfga-cache/src/controller.rs:330-355 | every atomic operation of a client or the actor keeps the controller's invariant; an advance covers every row committed so far |
| `Controller.TestStepKeeps` | crates/openfga-cache/src/controller.rs:357-377 | so does every single load of a permission test, and the flush of one that found its registration lapsed |
| `Controller.EndCovers` | crates/openfga-cache/src/controller.rs:837-846 | an empty last page means the store's whole past lies before an advance |
| `Controller.PageKeeps` | crates/openfga-cache/src/controller.rs:803-858 | consuming a page keeps the invariant, with the advance it owes still to come |
| `Controller.ActorKeeps` | crates/openfga-cache/src/controller.rs:698-777 | every actor step keeps it: rows are flushed before the store is put back or registered, after caught-up, partial and failed polls |
| `Controller.CommandKeeps` | crates/openfga-cache/src/controller.rs:636-696 | tracking, restarting and stopping keep it |
| `Controller.StepKeeps` | crates/openfga-cache/src/controller.rs:636-858 | so does every step of caches, clients, clock and actor |
| `Controller.ConsumedRowsAreSeen` | crates/openfga-cache/src/controller.rs:698-777 | every row consumed by a completed poll, partial and failed ones included, is seen by all reads behind any hit decided later |
| `Controller.PermittedIsRecent` | crates/openfga-cache/src/controller.rs:357-377 | with its loads interleaved with everything else, a granted permission test read the clock during the test and at most the maximum lag after the store's latest caught-up poll ended |
| `Controller.HitIsRecent` | crates/openfga-cache/src/decision.rs:220-252 | a hit is returned only after such a test begun once the hit was judged sound |
| `Controller.HitsFollowThePoll` | crates/openfga-cache/src/controller.rs:698-858 | bounded staleness: a hit reflects every row of its store, whoever committed it, that precedes the last page of a poll that ended at most the maximum lag before the lookup's permission test read the clock |
| `Controller.UndisturbedTest` | crates/openfga-cache/src/controller.rs:357-377 | a permission test nothing interrupts is granted if and only if the controller runs, the store is registered, its deadline has not passed and the controller is ready; a lapsed registration turns readiness off and flushes exactly if it was on |
| `Controller.CaughtUpIsRegistered` | crates/openfga-cache/src/controller.rs:720-738 | a caught-up poll nothing interrupts flushes if it read anything, registers its store for the maximum lag from now and makes the controller ready exactly if every store followed was caught up within the maximum lag |
| `Controller.LastPageIsConsumed` | crates/openfga-cache/src/controller.rs:803-858 | a last page in order brings the poll to the end of the log with exactly its rows consumed and the cursor on its last row |
| `Controller.LateStopsCaching` | crates/openfga-cache/src/controller.rs:709-718 | a store polled later than the maximum lag after its last success is made pending, readiness goes off and the caches are flushed before its first page is read |
| `Controller.FailureStopsCaching` | crates/openfga-cache/src/controller.rs:754-773 | a failed or disordered poll flushes, forgets the cursor and leaves its store pending and the controller not ready |
| `Controller.UnfinishedStopsCaching` | crates/openfga-cache/src/controller.rs:739-753 | a poll that does not catch up within its pages flushes exactly if it read anything, keeps the cursor and leaves its store pending and the controller not ready |
| `Controller.KnownIsReregistered` | crates/openfga-cache/src/controller.rs:661-673 | tracking a followed store registers it until the maximum lag after its last success, or makes it pending if that has passed |
| `Controller.NewIsFollowedOrRefused` | crates/openfga-cache/src/controller.rs:674-683 | a new store is followed from scratch and readiness goes off; without room it is unregistered and the caches are flushed |
| `Controller.TrackingIsQueuedOrFlushed` | crates/openfga-cache/src/controller.rs:336-355 | a registered store is left alone; any other turns readiness off and is queued as pending, or, if the queue is full or closed, is unregistered and the caches are flushed |
| `Controller.RestartForgets` | crates/openfga-cache/src/controller.rs:685-696 | a restart forgets every cursor, makes every followed store pending and flushes; the controller is ready after it only if it follows no store |
| `Controller.StopTurnsOff` | crates/openfga-cache/src/controller.rs:648-658 | a stop turns readiness off and then the controller |
| `ModelAlias.StepKeepsInv` | crates/openfga-cache/src/model.rs:343-410 | the alias and whatever a computation has loaded are never older than a completed publication |
| `ModelAlias.LatestIsNeverOlder` | crates/openfga-cache/src/model.rs:431-444 | after a publication completes every latest read begun later resolves to that model or a newer one |
| `ModelAlias.ResolvedIsPublished` | crates/openfga-cache/src/model.rs:343-410 | in every run an alias, and whatever a read loads or resolves to, is a published model of that very store |
| `ModelAlias.ComputedOnce` | crates/openfga-cache/src/model.rs:365-374 | an alias is computed only where there is none, and none appears while one is computed |
| `ModelAlias.AliasIsUsed` | crates/openfga-cache/src/model.rs:360-363 | a latest read resolves to the alias if there is one |
| `ModelAlias.NewestIsAliased` | crates/openfga-cache/src/model.rs:364-410 | without an alias it resolves to the newest model and leaves it as the alias, with the lock free |
| `ModelAlias.PublicationRemovesAlias` | crates/openfga-cache/src/model.rs:431-444 | a completed publication leaves no alias of its store |
| `Coalescing.StepKeeps` | crates/openfga-check/src/coalescing.rs:174-370 | every step keeps callers, in-flight entries and runs in order |
| `Coalescing.RecordIsOfARun` | crates/openfga-check/src/coalescing.rs:193-370 | every result held by an in-flight entry or a caller was left by an oracle run that ended earlier in the same history |
| `Coalescing.AnswersRefineTheOracle` | crates/openfga-check/src/coalescing.rs:193-370 | an answer is exactly what an earlier oracle run on the caller's own inputs ended with; errors and verified answers are those of the caller's own run |
| `Coalescing.SharedAnswersSeeWrites` | crates/openfga-check/src/coalescing.rs:223-293 | the run whose result is the answer misses no write acknowledged before the caller captured its generation |
| `Coalescing.KilledMeansBypassed` | crates/openfga-check/src/coalescing.rs:148-167 | once killed the strategy stays killed and later Checks are answered by their own runs |
| `Coalescing.KilledByMismatch` | crates/openfga-check/src/coalescing.rs:295-311 | in every run the strategy is killed if and only if it was disabled or, at one generation, an oracle and a shared answer disagreed: one answered and the other failed, they decided differently, or they failed differently |
| `Coalescing.CompareAnswers` | crates/openfga-check/src/coalescing.rs:193-221 | a verified caller is answered by its oracle, any other by its own candidate |
| `Coalescing.ExcludedMeansBypassed` | crates/openfga-check/src/coalescing.rs:162-167 | a caller that has shared nothing when the strategy is disabled or killed, that asks for higher consistency or that is metered is served by its own run alone, from then on |
| `Coalescing.ShadowAnswersAreOwn` | crates/openfga-check/src/coalescing.rs:330-370 | in shadow mode every answer is that of the caller's own run |
| `Coalescing.FollowersShare` | crates/openfga-check/src/coalescing.rs:223-293 | two callers with equal inputs and generation can share: the second is answered with the first one's decision and there is one oracle run |
| `Coalescing.EntriesAreHeld` | crates/openfga-check/src/coalescing.rs:249-273 | in every run an in-flight entry has its leader at work or about to leave with its value: interrupted leaders and callers that have taken a value leave no entry behind |
| `Coalescing.OneLeaderPerKey` | crates/openfga-check/src/coalescing.rs:249-252 | unless entries are evicted, at most one caller leads for a key at any time |
| `Coalescing.RetryFollowsFailure` | crates/openfga-check/src/coalescing.rs:281-292 | a caller retries on its own only after the run of another caller failed |
| `ConditionTypes.UnifyIsJoin` | crates/openfga-condition/src/compiler.rs:857-870 | the join is the least upper bound in precision, fails exactly when there is none, and succeeds exactly when `accepts` holds |
| `ConditionTypes.AcceptsIsCompatibility` | crates/openfga-condition/src/ir.rs:26-36 | `accepts` is symmetric and means that a common refinement exists |
| `ConditionTypes.UnifyNodes` | crates/openfga-condition/src/compiler.rs:844-855 | the element type of a literal is the least upper bound of its elements' types, refused exactly when they have none |
| `ConditionTypes.JoinIgnoresOrder` | crates/openfga-condition/src/compiler.rs:844-870 | it depends only on which types occur |
| `ConditionTypes.UnifyCommutes` | crates/openfga-condition/src/compiler.rs:857-870 | joining is commutative and idempotent |
| `ConditionTypes.UnifyAssociates` | crates/openfga-condition/src/compiler.rs:857-870 | joining is associative, failures included |
| `ConditionCompiler.RepresentsGrows` | crates/openfga-condition/src/compiler.rs:477-481 | later pushes change no earlier lowering |
| `ConditionCompiler.NamesResolve` | crates/openfga-condition/src/compiler.rs:951-968 | a name with or without a receiver stands for a function exactly when one of the thirteen is written so in that position, and then for that one |
| `ConditionTyping.UnaryFollows` | crates/openfga-condition/src/compiler.rs:621-640 | a unary operator is typed exactly by its signature |
| `ConditionTyping.BinaryFollows` | crates/openfga-condition/src/compiler.rs:872-949 | so is a binary one: compatibility means a common refinement, a comparison needs an ordered type, an index gives what the container holds |
| `ConditionTyping.FunctionFollows` | crates/openfga-condition/src/compiler.rs:970-1066 | a call is typed exactly by a row of the table of fourteen signatures |
| `ConditionTyping.TypingIsDecided` | crates/openfga-condition/src/compiler.rs:464-806 | for every expression, parameters and scopes: the compiler's typing succeeds with a type if and only if the typing judgement derives that type |
| `Lowering.Lowerer.Lower` | crates/openfga-condition/src/compiler.rs:464-475 | succeeds exactly when the recursive typing does, with the same type or the same error; the node stands for the expression, earlier nodes are kept and the scopes are restored |
| `Lowering.Lowerer.Push` | crates/openfga-condition/src/compiler.rs:477-481 | the new node refers only to smaller identifiers |
| `Lowering.Lowerer.LowerLiteral` | crates/openfga-condition/src/compiler.rs:487-501 | literals keep their value and type; a non-finite double is refused |
| `Lowering.Lowerer.LowerIdentifier` | crates/openfga-condition/src/compiler.rs:503-521 | a name is the innermost comprehension variable, else a parameter, else unknown |
| `Lowering.Lowerer.LowerList` | crates/openfga-condition/src/compiler.rs:523-533 | elements in order, typed by their join |
| `Lowering.Lowerer.LowerMap` | crates/openfga-condition/src/compiler.rs:535-560 | string keys, values typed by their join, unsupported entries refused in order |
| `Lowering.Lowerer.LowerSelect` | crates/openfga-condition/src/compiler.rs:562-583 | selection on maps and dynamic values, tests are boolean |
| `Lowering.Lowerer.LowerOperator` | crates/openfga-condition/src/compiler.rs:612-720 | operators check their shape, lower operands left to right and type the result |
| `Lowering.Lowerer.LowerFunction` | crates/openfga-condition/src/compiler.rs:722-758 | receiver first, then arguments, then the overload table; the call keeps the written function |
| `Lowering.Lowerer.LowerComprehension` | crates/openfga-condition/src/compiler.rs:760-806 | condition, step and result see the comprehension's names; the scope is popped on success and on error |
| `ConditionMeaning.MeaningIsPreserved` | crates/openfga-condition/src/compiler.rs:464-806 | for every interpretation of the operators, of the function names as written and of the environment the arena evaluates to what the expression does |
| `ConditionMeaning.EarlierNodesAreStable` | crates/openfga-condition/src/compiler.rs:477-481 | extending an arena changes no earlier node's value |
| `ConditionMeaning.Compile` | crates/openfga-condition/src/compiler.rs:109-116 | accepts exactly the supported boolean expressions within the limits; a rejection names a real cause |
| `ConditionMeaning.CompiledMeansSource` | crates/openfga-condition/src/compiler.rs:101-116 | a compiled program evaluates to what its source does |
| `ShapeCheck.ChildrenMakeUp` | crates/openfga-condition/src/compiler.rs:371-420 | counts and height of a tree are its own share and its pushed children's |
| `ShapeCheck.Expand` | crates/openfga-condition/src/compiler.rs:357-369 | replacing a stacked expression by its children keeps what the stack says about the tree |
| `ShapeCheck.PushChildren` | crates/openfga-condition/src/compiler.rs:371-420 | exactly the children are pushed and the own counts added, or the first violated limit or unsupported form is reported |
| `ShapeCheck.ValidateShape` | crates/openfga-condition/src/compiler.rs:357-437 | the worklist ends on every tree and accepts it exactly when its recursive counts, height and collection sizes are within limits and no unsupported form occurs; a rejection names a real cause |
| `Fingerprints.FingerprintBuilder.constructor` | crates/openfga-domain/src/fingerprint.rs:54-60 | the stream starts with the length-delimited domain |
| `Fingerprints.FingerprintBuilder.WriteTag` | crates/openfga-domain/src/fingerprint.rs:63-65 | one byte is appended |
| `Fingerprints.FingerprintBuilder.WriteU32` | crates/openfga-domain/src/fingerprint.rs:68-70 | four big-endian bytes are appended |
| `Fingerprints.FingerprintBuilder.WriteU64` | crates/openfga-domain/src/fingerprint.rs:73-75 | eight big-endian bytes are appended |
| `Fingerprints.FingerprintBuilder.WriteStr` | crates/openfga-domain/src/fingerprint.rs:83-91 | length and bytes are appended |
| `Fingerprints.BigEndianIsInjective` | crates/openfga-domain/src/fingerprint.rs:68-80 | fixed-width numbers can be read back |
| `Fingerprints.StrSplits` | crates/openfga-domain/src/fingerprint.rs:83-91 | a length-delimited string and what follows it can be told apart |
| `Fingerprints.CountedSplits` | crates/openfga-cache/src/tuple.rs:647-655 | so can a counted list and what follows it |
| `CacheKeys.ObjectTextIsInjective` | crates/openfga-domain/src/reference.rs:157-161 | rendering an object loses nothing |
| `CacheKeys.SubjectTextIsInjective` | crates/openfga-domain/src/reference.rs:424-432 | objects, usersets and wildcards never render alike |
| `CacheKeys.ConditionsSplit` | crates/openfga-cache/src/tuple.rs:657-669 | the three kinds of condition filter and what follows can be told apart |
| `CacheKeys.ReadStreamIsInjective` | crates/openfga-cache/src/tuple.rs:544-679 | equal tuple-read streams come from the same operation on the same inputs |
| `CacheKeys.TupleReadKey` | crates/openfga-cache/src/tuple.rs:544-645 | what each key function writes is that stream |
| `CacheKeys.WriteSubjects` | crates/openfga-cache/src/tuple.rs:647-655 | a count and the rendered subjects in set order |
| `CacheKeys.WriteConditions` | crates/openfga-cache/src/tuple.rs:657-669 | a tag per kind of filter, and the counted names |
| `CacheKeys.WriteAllowed` | crates/openfga-cache/src/tuple.rs:615-619 | a count and two strings per allowed userset |
| `DefinitionKeys.DecisionStreamIsInjective` | crates/openfga-cache/src/decision.rs:119-141 | equal decision keys come from the same store, model, tuple, context and evaluator version |
| `DefinitionKeys.DecisionKey` | crates/openfga-cache/src/decision.rs:119-141 | what is written is that stream |
| `DefinitionKeys.ContextInputSplits` | crates/openfga-cache/src/decision.rs:85-90 | the two keyed context digests cannot be confused |
| `DefinitionKeys.TypeSplits` | crates/openfga-condition/src/compiler.rs:1096-1117 | the parameter type code is prefix-free |
| `DefinitionKeys.DefinitionStreamIsInjective` | crates/openfga-condition/src/compiler.rs:1084-1094 | equal definition streams come from equal definitions |
| `DefinitionKeys.FingerprintDefinition` | crates/openfga-condition/src/compiler.rs:1084-1117 | what is written is that stream |
| `DefinitionKeys.CompilationStreamIsInjective` | crates/openfga-condition/src/compiler.rs:142-160 | a compiled condition is shared only for one definition under one value of every limit |
| `DefinitionKeys.CompilationKey` | crates/openfga-condition/src/compiler.rs:142-160 | what is written is that stream |
| `CompilationCache.CompileUncached` | crates/openfga-condition/src/compiler.rs:101-140 | the size checks, the parser's verdict, each shape limit by name, the typing judgement for a boolean, and the program, in turn and with the cause it names |
| `CompilationCache.ScopeDeclares` | crates/openfga-condition/src/compiler.rs:827-842 | the scope binds exactly the parameters' names, each to the static type its last parameter declares |
| `CompilationCache.KeyCoversCompilation` | crates/openfga-condition/src/compiler.rs:142-160 | equal keys come from equal definitions and limits, so the key covers everything compilation depends on |
| `CompilationCache.ConditionCache.Compile` | crates/openfga-condition/src/compiler.rs:89-98 | a cached compilation is that of the very definition and limits asked for; only successes are stored |

## Left out

- Scheduling.Scheduler.Drive: for whole runs the reducer-state error has a necessary and a sufficient condition, not one for both; between them it depends on which read finishes first.
- Reachability.BuildTables: leaves out the edge-count limit, the reverse edges and the recursion groups, and propagates types and wildcards as one table of tagged facts.
- BatchCheck.RunBatch: evaluates a root when its task is joined; the world of a root is fixed, so only the order of completion matters.
- Scheduling.Scheduler.StartRead: leaves out building the storage filter, which cannot fail without subject restrictions.
- ConditionMeaning.MeaningIsPreserved: operators are uninterpreted, so evaluation cost, cancellation and short-circuit order are not observed.
- The resolution label of a decision (direct, computed, union and so on) is fixed by the reducers' specification only; the theorems on whole runs are about the answer.
- Entry validation of a Check (model identity, query tuple, contextual tuples) and the building of responses and metadata.
- Reducers and memo as nested mutable objects: inside the scheduler they are values in fields that the methods reassign.
- CompilationCache.CompileUncached: leaves out the metadata fingerprint and the size estimate that weighs cache entries.
- Poll scheduling: next-poll times, backoff and jitter are arbitrary; any tracked store may be due at any tick.
- The changelog is assumed ordered by commit, and a page that passes validation is assumed to be the next stretch of it.
- Moka internals, weighers and time-to-live arithmetic: maps with arbitrary eviction; per-key serialised computation is an assumption of the alias model.
- SHA-256, HMAC and key randomness: keys are compared before hashing, digests are opaque.
- Wrap-around of the 64-bit generation and of native sizes.
- Runtime type soundness of conditions: not claimed, since the join prefers a concrete type to the dynamic one.
- The condition evaluator's value operations, the CEL parser, model validation, storage backends, list engines, authentication and the server.
