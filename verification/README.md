# Verified model of the business engine's stateful kernels

These Dafny modules model the parts of the engine whose correctness is a claim
about state or text: the SQL fragment composer and the tenant filters it
injects, the query planner's WHERE clause, plugin loading, the hash-chained
ledger, the priority scheduler, bank reconciliation, sagas, the event bus,
webhook deduplication, money allocation and rounding, and the stock valuation
example. `dafny verify dfyconfig.toml` checks everything.

Code that updates objects is modelled by classes whose methods are proved
against step functions or specification functions; the theorems are about
those functions, over every run or every input. Code that waits (`await`,
timers, separate lock acquisitions) is split into atomic steps, and the
theorems quantify over every interleaving of them. Clocks, digests, handlers,
providers and the tenant context are parameters.

| file | models |
|---|---|
| `Digits`, `SqlTemplate`, `SqlSplice`, `SqlQuery` | `sql`, `sql.fragment`, `sql.join`: placeholder renumbering on characters |
| `SqlText`, `SqlFilters`, `SqlReader`, `SqlFilterMeaning`, `SqlStatement`, `SqlOpenLiteral`, `SqlScoping`, `SqlSelects` | `injectFilters`, and what the rewritten statement returns |
| `SqlLiteral`, `QueryPlanner` | query plans and the WHERE clause rendered from them |
| `PluginCycles`, `PluginLoader` | cycle detection, the service container and loading in order |
| `Ledger`, `LedgerSchedule`, `LedgerTamper` | entries, ring, interleaved writers and flushes, schedules that keep one chain, tamper evidence |
| `Scheduler` | the heap, polling, whole runs, backoff |
| `BankRetry`, `BankRetryOverlap`, `BankRetryTime`, `BankRetryCalls`, `Transaction`, `EventBus`, `EventBusListeners`, `WebhookDedup`, `WebhookHistory` | the asynchronous state machines, and what they do told from their events alone |
| `Rounding`, `Decimals`, `Money`, `FormulaEngine`, `Inventory`, `InventoryUnits` | rounding, 28-digit arithmetic, allocation, decimal strings, stock value and units |

Several conditions under which a promise holds are exact: the module states an
if-and-only-if, or gives a run or an input on the other side of it. Where a
comment in the repository and its code disagree, the model follows the code:

- `Money.allocate`'s example (packages/finance/src/money/index.ts:75-77) gives
  16.09 and 6.90; the floor of 6.897 is 6.89, and the remainder goes to the
  first bucket, so the code gives 16.10 and 6.89.
- The saga's comments (packages/commerce/src/transaction/index.ts:49, 126) say
  compensations are registered before a step executes; the code registers them
  after the provider has returned. `Transaction.RollbackCompleteIffNoneLate`
  says exactly what that costs.
- The registry promises that circular dependencies are detected before any
  plugin initializes (packages/core/src/plugin/registry.ts:90). The graph it
  searches has plugin names as nodes while dependencies are service keys, so a
  cycle through services is not found (`PluginLoader.ServiceCycleUndetected`);
  loading always fails on it (`PluginLoader.ServiceCycleNeverLoads`).
- A status check that is in flight when its retry is force-resolved or
  cancelled does not look at `resolved` when it returns
  (packages/commerce/src/state-machine/bank-retry.ts:146-169);
  `BankRetryOverlap.ResolvedTwiceIff` and `ListedIff` say exactly what follows.
- Inventory and `Money` promise that no cent is lost
  (examples/inventory/src/index.ts:111-112,
  packages/finance/src/money/index.ts:20, 107); every result is rounded to 28
  digits, so that holds within the digits `Inventory.ValueConserved` names, and
  in `allocate` exactly as `Money.ConservedIff` says.
- `injectFilters` passes its text to `String.replace` as a pattern, so `$`
  sequences in a tenant id are expanded (packages/db/src/sql/template.ts:66).

## Model

| member | source | states |
|---|---|---|
| SqlTemplate.CompositionMeaning | packages/db/src/sql/template.ts:93-195 | a nest of templates, fragments and joins means exactly what was written, character by character and value by value, if and only if in the spliced statement no hole and no literal `$` is directly followed by a digit |
| SqlTemplate.CompositionIsSplicing | packages/db/src/sql/template.ts:93-195 | under that condition the composed text and parameters are those of one flat template |
| SqlTemplate.PlaceholdersInOrder | packages/db/src/sql/template.ts:102-119 | at any nesting depth the placeholders read `$1` to `$n` left to right, one for each parameter |
| SqlTemplate.FlatMeaning | packages/db/src/sql/template.ts:102-119 | a flat template means what was written exactly when it is clean |
| SqlTemplate.ShiftText | packages/db/src/sql/template.ts:110-113 | the greedy rewrite of `$n` by an offset turns a clean statement numbered from one base into the same statement numbered from the other |
| SqlTemplate.TokensOfShift | packages/db/src/sql/template.ts:110-113 | the rewrite never changes how many characters and placeholders a text has, clean or not |
| SqlTemplate.AssembleFaithful | packages/db/src/sql/template.ts:102-119 | appending faithful pieces one by one gives a faithful whole, and nothing repairs a piece that was not |
| SqlTemplate.BuildFragment | packages/db/src/sql/template.ts:141-163 | the loop builds the assembled statement, and is faithful when its interpolated fragments are |
| SqlTemplate.JoinFragments | packages/db/src/sql/template.ts:172-198 | joining interleaves the separator between the fragments, renumbering both, and is faithful when they are |
| SqlTemplate.EvalFaithful | packages/db/src/sql/template.ts:93-198 | by induction over nesting: the text is the flat rendering exactly when clean, and otherwise has lost a cell |
| SqlSplice.TemplateSays | packages/db/src/sql/template.ts:102-119 | what was written, read from the front: a template says its first string, its first value or fragment, and then the rest |
| SqlSplice.LastStringSays | packages/db/src/sql/template.ts:102-119 | and a template of one string says that string |
| SqlSplice.JoinSays | packages/db/src/sql/template.ts:169-195 | a join says its first part, the separator, and then the join of the rest |
| SqlSplice.ShortJoinSays | packages/db/src/sql/template.ts:169-195 | a join of one part says that part, and of none nothing |
| SqlSplice.TwoValues | packages/db/src/sql/template.ts:102-119 | strings with two values between them become the same strings with `$1` and `$2` |
| SqlQuery.BuildQuery | packages/db/src/sql/template.ts:94-130 | the tag composes, trims and filters; its parameters and text are those of the spliced statement, placeholders in order, and when that starts with SELECT after white space, the query starts with that word and mentions org_id |
| SqlQuery.QueryBindsInOrder | packages/db/src/sql/template.ts:94-130 | after composing, trimming and injecting filters the placeholders are still `$1` to `$n` in order, for a tenant id that has no placeholder of its own and, where `replace` is used, no replacement pattern |
| SqlFilters.InjectIdempotent | packages/db/src/sql/template.ts:48-73 | injecting a second time, for any tenant, changes nothing, on every text |
| SqlFilters.InjectedIncludes | packages/db/src/sql/template.ts:48-73 | every rewritten SELECT mentions org_id, whatever the text and the tenant id |
| SqlFilters.InjectKeepsPlaceholders | packages/db/src/sql/template.ts:48-73 | the rewrite leaves the sequence of placeholders unchanged, for such a tenant id |
| SqlFilters.FindWhere | packages/db/src/sql/template.ts:57-66 | the first match of the keyword as a whole word, ignoring case, or none |
| SqlFilters.ReplaceIsPlain | packages/db/src/sql/template.ts:65-67 | `replace` inserts the filters as they are when no `$` of the tenant id, its closing quote included, starts a replacement pattern |
| SqlFilters.TenantIsExpanded | packages/db/src/sql/template.ts:65-67 | for every tenant id: its escaped text with the closing quote is inserted expanded, so the text is as intended if and only if expanding changes nothing |
| SqlFilters.ExpandFirst | packages/db/src/sql/template.ts:66-66 | the first pattern is replaced by what it stands for, and expansion goes on after it |
| SqlFilters.DollarTenantIsExpanded | packages/db/src/sql/template.ts:65-67 | a tenant id whose one pattern is `$$` or `$&` is never inserted as it is |
| SqlReader.TokensAppend | packages/db/src/sql/template.ts:65-73 | text is read part by part wherever no word or literal runs across the cut |
| SqlReader.UnmatchedNotRead | packages/db/src/sql/template.ts:57-66 | a word that its `\b` expression matches nowhere is not among the words read |
| SqlFilterMeaning.CombinedTokens | packages/db/src/sql/template.ts:59-61 | the inserted text is read as the tenant test and the soft-delete test, for every tenant id including quotes and keywords |
| SqlFilterMeaning.FilteredAccepts | packages/db/src/sql/template.ts:65-67 | filters in front of a condition bind to its first alternative only |
| SqlFilterMeaning.SingleDisjunctScopes | packages/db/src/sql/template.ts:65-67 | in front of a condition without an outer OR, exactly the tenant's undeleted rows of the original are returned |
| SqlFilterMeaning.SecondDisjunctLeaks | packages/db/src/sql/template.ts:65-67 | with an outer OR they are not |
| SqlFilterMeaning.WhereScopes | packages/db/src/sql/template.ts:65-67 | filters after the first WHERE scope a SELECT exactly when that WHERE is not nested, in a subquery before or after the tail, and its condition has no outer OR |
| SqlFilterMeaning.NewClauseScopes | packages/db/src/sql/template.ts:69-73 | a new clause scopes a SELECT exactly when it is not nested and no tail comes before it: ORDER BY, GROUP BY, HAVING, WINDOW, LIMIT, OFFSET, FETCH, FOR or a semicolon |
| SqlFilterMeaning.OuterEnderIsTail | packages/db/src/sql/template.ts:70-73 | any such keyword or semicolon outside parentheses is a tail, whether or not the code looks for it |
| SqlFilterMeaning.ReadInsert | packages/db/src/sql/template.ts:65-73 | what is inserted inside parentheses does not change how the SELECT around them is read |
| SqlStatement.StatementWhereScopes | packages/db/src/sql/template.ts:65-67 | for whole statements: the same, and only when no UNION, EXCEPT or INTERSECT combines SELECTs |
| SqlStatement.StatementClauseScopes | packages/db/src/sql/template.ts:69-73 | for whole statements: the same, and only when no UNION, EXCEPT or INTERSECT combines SELECTs |
| SqlStatement.CombinedLeaks | packages/db/src/sql/template.ts:65-73 | filters go into one SELECT only, so combined SELECTs are never all scoped |
| SqlOpenLiteral.OpenNotRead | packages/db/src/sql/template.ts:57-73 | after an open literal, text is read as quoted up to its first quote, and words in it are not read |
| SqlScoping.AtWhereScopes | packages/db/src/sql/template.ts:65-67 | the same on characters, through the regular expression and `replace` |
| SqlScoping.BeforeTailScopes | packages/db/src/sql/template.ts:69-71 | the same for a clause inserted before ORDER BY, LIMIT, GROUP BY or HAVING |
| SqlScoping.AtEndScopes | packages/db/src/sql/template.ts:73-73 | the same for a clause appended at the end |
| SqlScoping.InLiteralLeaks | packages/db/src/sql/template.ts:57-73 | filters that land inside a literal scope nothing, for a non-empty tenant id without quotes that does not mention org_id |
| SqlScoping.TailTokens | packages/db/src/sql/template.ts:70-71 | what the tail expression finds is read as the start of a tail |
| SqlScoping.InjectScopes | packages/db/src/sql/template.ts:48-73 | a rewritten statement returns exactly the original's rows that are the tenant's and not deleted if and only if it is one SELECT, the insertion point is in no literal and not nested, no tail precedes it, and the condition has no outer OR |
| SqlScoping.UnchangedScopesIff | packages/db/src/sql/template.ts:48-55 | a statement that mentions org_id anywhere or does not start with SELECT is returned as it is, and is scoped if and only if every alternative of each of its conditions already asks for both tests (or a SELECT is malformed) |
| SqlSelects.SelectIsFiltered | packages/db/src/sql/template.ts:48-73 | whatever white space comes first, a text that goes on with SELECT, in any case, and does not mention org_id is changed and then mentions it |
| SqlSelects.OtherTextIsKept | packages/db/src/sql/template.ts:48-50 | a text that goes on with anything else is returned as it is |
| SqlSelects.TrimExact | packages/db/src/sql/template.ts:49-49 | trimming removes the white space at both ends and nothing else |
| SqlSelects.QueryIsFiltered | packages/db/src/sql/template.ts:120-120 | the query of a text with white space in front starts with SELECT and mentions org_id |
| SqlSelects.ClauseIsInserted | packages/db/src/sql/template.ts:69-73 | without WHERE, the clause, spelled out, is put before the first ORDER BY, LIMIT, GROUP BY or HAVING, or at the end |
| SqlSelects.FiltersAreInserted | packages/db/src/sql/template.ts:65-67 | with a WHERE, the filters, spelled out, are put right after the first, for a tenant id without replacement patterns |
| SqlSelects.SelectWithoutWhere | packages/db/src/sql/template.ts:69-73 | a well-formed SELECT without WHERE whose head before the first of those keywords is closed, balanced and has no other tail becomes the tenant's undeleted rows of the original |
| SqlSelects.SelectWithWhere | packages/db/src/sql/template.ts:65-67 | a well-formed SELECT whose first WHERE is in no literal and no parentheses becomes that if and only if its condition has no outer OR |
| SqlLiteral.LexEscaped | crates/query-planner/src/lib.rs:231-233 | doubling quotes is undone by reading the literal, which stops at its own closing quote (ISO/IEC 9075-2, section 5.3) |
| SqlLiteral.EscapeAppend | crates/query-planner/src/lib.rs:232-232 | escaping goes character by character, doubles quotes and changes nothing else |
| QueryPlanner.MakePlan | crates/query-planner/src/lib.rs:135-193 | both refusals exactly when they occur, and otherwise the filters, the limit guardrail and the flags of the plan |
| QueryPlanner.PlanSudo | crates/query-planner/src/lib.rs:198-218 | a sudo plan keeps table, limit and offset, renders to no restriction, includes deleted rows and carries the bypass flag; it is refused exactly for an invalid table |
| QueryPlanner.ClauseRoundTrip | crates/query-planner/src/lib.rs:222-242 | the rendered clause reads back to exactly the filters it was rendered from, whatever quotes or " AND " the values contain |
| QueryPlanner.RenderedClause | crates/query-planner/src/lib.rs:222-242 | the clauses a plan can have, as text |
| QueryPlanner.ClauseEnforcesTenancy | crates/query-planner/src/lib.rs:149-170 | the clause of a plan accepts a row exactly when it is the plan's tenant's and, for a SELECT, not deleted |
| PluginCycles.DetectCircular | packages/core/src/plugin/registry.ts:55-76 | terminates; what it reports is a closed walk in which each name's last declaration lists the next name, and it reports nothing only when there is no such walk |
| PluginCycles.Search.Dfs | packages/core/src/plugin/registry.ts:61-71 | one search step: a reported cycle is real, and otherwise every visited name is on the path or finished with all its dependencies finished before it |
| PluginCycles.SearchFrom | packages/core/src/plugin/registry.ts:73-75 | a search that ends normally leaves its start on no cycle |
| PluginCycles.NoCycleFrom | packages/core/src/plugin/registry.ts:66-66 | a name finished after all its dependencies is on no cycle, so skipping visited names hides none |
| PluginCycles.PathCloses | packages/core/src/plugin/registry.ts:62-65 | the slice of the path since the repeated name is a closed walk |
| PluginCycles.BuildDepMap | packages/core/src/plugin/registry.ts:56-59 | the map holds each name's last declaration |
| PluginCycles.DepMapLists | packages/core/src/plugin/registry.ts:56-59 | one name is an edge from another if and only if the other's last declaration lists it |
| PluginCycles.CycleIsDeclared | packages/core/src/plugin/registry.ts:55-76 | so the cycles of the map are the closed walks of the declarations |
| PluginLoader.Container.Register | packages/core/src/plugin/registry.ts:19-26 | a key is bound once; a second registration fails and changes nothing |
| PluginLoader.Container.SandboxedView | packages/core/src/plugin/registry.ts:42-50 | the view holds exactly the declared keys that are registered |
| PluginLoader.Registry.LoadAll | packages/core/src/plugin/registry.ts:93-99 | a cycle error names a closed walk along the plugins' own dependencies and leaves the registry as it was; otherwise there is no such walk and the plugins are loaded in order |
| PluginLoader.Registry.Load | packages/core/src/plugin/registry.ts:101-138 | one plugin: skipped when loaded, refused at the first missing dependency, otherwise each service bound under both its names |
| PluginLoader.LoadAllInOrder | packages/core/src/plugin/registry.ts:93-138 | after success on distinct names: every dependency was offered by an earlier plugin, what each factory saw is the container's final value, and every key is bound to its first offer |
| PluginLoader.LoadFromOrdered | packages/core/src/plugin/registry.ts:104-115 | what each plugin found when it was loaded, given what the container ends up with |
| PluginLoader.ServiceCycleNeverLoads | packages/core/src/plugin/registry.ts:104-112 | plugins with a cycle through their services, each needing a key that only members of a group provide, never load |
| PluginLoader.AcceptIsFirstOffer | packages/core/src/plugin/registry.ts:124-128 | a key keeps its binding, or gets the first value offered for it |
| PluginLoader.RegisterServicesAccepts | packages/core/src/plugin/registry.ts:118-135 | registering a plugin's services is offering each under its qualified name, then its bare name |
| PluginLoader.RegisterServicesFails | packages/core/src/plugin/registry.ts:115-135 | a failure names the first service whose factory throws or whose qualified name is taken, and leaves exactly the services before it registered |
| PluginLoader.ServiceCycleUndetected | packages/core/src/plugin/registry.ts:90-94 | two plugins that need each other's services pass the cycle check, and fail at loading with the first missing key |
| Ledger.EveryInterleaving | crates/ledger/src/lib.rs:203-238 | in every interleaving of reads, pushes, tip updates and pops: entries verify and refer to GENESIS or an earlier hash, flushed entries and ring are the pushed sequence, the ring is bounded |
| Ledger.StepKeepsInv | crates/ledger/src/lib.rs:203-238 | each atomic step keeps that invariant |
| Ledger.SerialWritesChain | crates/ledger/src/lib.rs:203-254 | when calls do not overlap, all pushed entries form one chain, every batch of consecutive entries passes the chain check, and the tip is its last hash |
| Ledger.UninterruptedWrite | crates/ledger/src/lib.rs:203-233 | a call that is not interrupted appends one entry and moves the tip, or fails and changes nothing |
| Ledger.PopsTakeOldest | crates/ledger/src/lib.rs:171-177 | after any interleaving, a flusher's pops take the oldest entries in order, one each, and touch nothing else |
| LedgerSchedule.OneChainIffCurrent | crates/ledger/src/lib.rs:203-233 | in every interleaving whose log does not repeat a hash, the pushed entries form one chain if and only if every push is by a call that read the tip as the last push had set it |
| LedgerSchedule.CurrentPushesChain | crates/ledger/src/lib.rs:203-233 | whatever the hashes, such a schedule gives one chain |
| LedgerSchedule.RunPlaced | crates/ledger/src/lib.rs:213-231 | tip, held entries and pushed hashes are always those of the log at the positions the schedule alone tells |
| LedgerSchedule.OverlapForks | crates/ledger/src/lib.rs:213-231 | a schedule that is not: two overlapping calls produce a log that fails the chain check |
| Ledger.LedgerWriter.Write | crates/ledger/src/lib.rs:203-233 | which error occurs when; a failure leaves ring and tip unchanged; success appends a verifying entry that refers to the old tip |
| Ledger.LedgerWriter.Flush | crates/ledger/src/lib.rs:171-177 | the batch is the whole ring in order and the ring is left empty, tip unchanged |
| Ledger.VerifyChain | crates/ledger/src/lib.rs:241-254 | accepts exactly the logs whose entries all verify and refer to their predecessor |
| LedgerTamper.TamperEvidence | crates/ledger/src/lib.rs:107-124 | two chains from GENESIS that end in the same hash agree in length and on every hashed field, if only one field may have colons, unless the digest collides on two of their entries or yields GENESIS on one |
| LedgerTamper.PayloadInjective | crates/ledger/src/lib.rs:117-120 | entries of which only one field, the same in both, may have colons agree on every hashed field when their hashed texts are the same |
| LedgerTamper.PayloadText | crates/ledger/src/lib.rs:117-120 | the hashed text, from the previous hash to the time |
| LedgerTamper.TenantAndStateNotCovered | crates/ledger/src/lib.rs:107-116 | tenant and state of any entry can be changed without breaking the chain |
| LedgerTamper.ColonsBreakInjectivity | crates/ledger/src/lib.rs:117-120 | with colons in two fields, two different entries form chains with the same end |
| Scheduler.BeforeMeans | crates/scheduler/src/lib.rs:108-118 | the comparison orders by earliest time; then critical, high, normal and low |
| Scheduler.Scheduler.Schedule | crates/scheduler/src/lib.rs:144-151 | accepted exactly below capacity, adding the job and nothing else; heap order kept |
| Scheduler.Scheduler.Poll | crates/scheduler/src/lib.rs:154-165 | returns exactly the due jobs, sorted, and leaves exactly the others in heap order |
| Scheduler.Scheduler.SiftUp | crates/scheduler/src/lib.rs:149-149 | restores heap order after a push without changing the jobs |
| Scheduler.Scheduler.SiftDown | crates/scheduler/src/lib.rs:159-159 | restores heap order after a pop without changing the jobs |
| Scheduler.Scheduler.NextRunAt | crates/scheduler/src/lib.rs:177-179 | the least time stored, or none when empty |
| Scheduler.PollReturnsWaiting | crates/scheduler/src/lib.rs:144-165 | over every run each poll returns every waiting copy of each job it reaches, and the store holds exactly the waiting ones within capacity |
| Scheduler.AcceptedOnceReturnedOnce | crates/scheduler/src/lib.rs:144-165 | a job accepted once is returned once, by the first later poll whose time reaches it, and by no other |
| Scheduler.BackoffIsCappedPower | crates/scheduler/src/lib.rs:184-189 | capping the exponent first still gives the capped power for every attempt |
| BankRetry.RetryGuarantees | packages/commerce/src/state-machine/bank-retry.ts:63-171 | in every run where no force-resolve or cancel meets a check in flight, a retry resolves exactly when its callback was called, once, and a payment is active exactly when it has one armed timer or running check |
| BankRetry.StepKeepsInv | packages/commerce/src/state-machine/bank-retry.ts:63-171 | each step of such a run keeps the invariant, also when a callback or check throws |
| BankRetryTime.DurationGuardTripsFirst | packages/commerce/src/state-machine/bank-retry.ts:128-171 | over every run at all, for every unresolved retry whose check comes back without a verdict, listed or not: elapsed time is at least 60 s for each attempt, so the duration guard trips no later than the attempt guard; past 24 h it ends in manual review, before that it arms exactly one timer, within 1440 attempts |
| BankRetryTime.RunTimed | packages/commerce/src/state-machine/bank-retry.ts:131-143 | over every run at all no entry has more than 1440 attempts, and no poll comes before 60 s have passed for each |
| BankRetryOverlap.ResolvedTwiceIff | packages/commerce/src/state-machine/bank-retry.ts:63-171 | over every run at all, a resolved retry had its callback called once, and a second time if and only if it was force-resolved while its check was in flight and the check then came back with a verdict |
| BankRetryOverlap.ListedIff | packages/commerce/src/state-machine/bank-retry.ts:63-171 | over every run at all, a listed payment is polled, and a polled retry is unlisted if and only if a cancel met its check in flight or another retry of its payment ended |
| BankRetryOverlap.StepKeepsAny | packages/commerce/src/state-machine/bank-retry.ts:63-171 | each step of any run keeps the invariant behind both |
| BankRetryCalls.CallsAreEndings | packages/commerce/src/state-machine/bank-retry.ts:96-169 | over every run at all, `onResolved` was called for a retry with a state as often as an event ended it so: committed when a check of it succeeded, rolled back when one failed, manual review when one came back without a verdict past a guard, and any state when it was forced to it |
| BankRetryCalls.CallsInOrder | packages/commerce/src/state-machine/bank-retry.ts:96-169 | the calls come in the order of those events, one for each |
| BankRetryCalls.RetryStarted | packages/commerce/src/state-machine/bank-retry.ts:69-76 | over every run, a retry's start time is that of the event that started it, and while unresolved its attempts are one more than its checks that returned |
| BankRetryCalls.StartEffect | packages/commerce/src/state-machine/bank-retry.ts:63-77 | a payment that is not listed gets a new retry with one attempt and a timer in 60 seconds; nothing else adds one |
| BankRetryCalls.PollEffect | packages/commerce/src/state-machine/bank-retry.ts:128-169 | a check without a verdict arms the next poll in 60 seconds exactly when the retry is unresolved, under 24 hours old and under 1440 attempts |
| BankRetryOverlap.UnlistedIff | packages/commerce/src/state-machine/bank-retry.ts:109-117 | which events take a polled retry off the list, and no others |
| BankRetryOverlap.ForcedDuringCheck | packages/commerce/src/state-machine/bank-retry.ts:96-107 | forced during its check, a retry is resolved a second time if and only if the check has a verdict |
| BankRetryOverlap.CancelledDuringCheck | packages/commerce/src/state-machine/bank-retry.ts:112-117 | cancelled during its check, a retry has an armed timer afterwards if and only if the check did not resolve it |
| BankRetryOverlap.LeftoverCheck | packages/commerce/src/state-machine/bank-retry.ts:150-162 | a check left over from a forced retry takes the payment's new retry off the list if and only if it has a verdict, and leaves it polling |
| BankRetryOverlap.CheckingIsReached | packages/commerce/src/state-machine/bank-retry.ts:63-147 | the state the runs below start from is reached |
| BankRetryOverlap.ForcedDuringCheckResolvesTwice | packages/commerce/src/state-machine/bank-retry.ts:96-107 | a run of the first: forced during a check that then succeeds |
| BankRetryOverlap.CancelledDuringCheckLivesOn | packages/commerce/src/state-machine/bank-retry.ts:112-117 | a run of the second: cancelled during a check that stays pending |
| BankRetryOverlap.LeftoverCheckDropsNewRetry | packages/commerce/src/state-machine/bank-retry.ts:150-162 | a run of the third: started again while a forced retry's check is under way |
| BankRetry.BankRetry.StartBankRetry | packages/commerce/src/state-machine/bank-retry.ts:63-77 | the method takes the start step |
| BankRetry.BankRetry.Schedule | packages/commerce/src/state-machine/bank-retry.ts:128-143 | the method takes the scheduling step: nothing when resolved, manual review past a guard, otherwise one more attempt and a timer |
| BankRetry.BankRetry.TimerFires | packages/commerce/src/state-machine/bank-retry.ts:143-147 | the method takes the timer step up to the first await |
| BankRetry.BankRetry.CheckReturns | packages/commerce/src/state-machine/bank-retry.ts:147-169 | the method takes the step after the check, for every outcome |
| BankRetry.BankRetry.ForceResolve | packages/commerce/src/state-machine/bank-retry.ts:96-107 | the method takes the force step |
| BankRetry.BankRetry.CancelAllRetries | packages/commerce/src/state-machine/bank-retry.ts:112-117 | the method takes the cancel step |
| Transaction.RunTransaction | packages/commerce/src/transaction/index.ts:143-229 | for every script: on success no refund runs and the state is committed unless a charge was bank-pending; on failure the succeeded charges are refunded once each in reverse and the state is rolled back, or the first failing refund stops them and the state is manual review |
| Transaction.Saga.RunAll | packages/commerce/src/transaction/index.ts:74-80 | compensations run last to first and stop at the first that throws |
| Transaction.Saga.Commit | packages/commerce/src/transaction/index.ts:212-216 | the final state on return |
| Transaction.Saga.Rollback | packages/commerce/src/transaction/index.ts:218-226 | the refunds issued and the final state on failure |
| Transaction.StackRefunds | packages/commerce/src/transaction/index.ts:158-199 | the compensation stack refunds exactly the succeeded charges |
| Transaction.EveryInterleaving | packages/commerce/src/transaction/index.ts:156-229 | the same with charges that end at any time, even after the transaction has ended: refunds, which of them failed, and the state, which is the final one unless a bank-pending charge ended after it was written |
| Transaction.RollbackEnds | packages/commerce/src/transaction/index.ts:74-80 | in every interleaving, once the callback has thrown and more turns were taken than it made calls, the rollback is completed if the refunds it owes go through, and stuck at the first that throws otherwise |
| Transaction.ReturnedStays | packages/commerce/src/transaction/index.ts:212-216 | a callback that returns first is never rolled back, whatever ends later |
| Transaction.SucceededChargesAre | packages/commerce/src/transaction/index.ts:158-176 | what is owed: the charges that succeeded, and neither bank-pending or failed ones nor licences |
| Transaction.RollbackCompleteIffNoneLate | packages/commerce/src/transaction/index.ts:158-176 | a finished rollback has refunded every succeeded charge if and only if none succeeded after it began |
| Transaction.FinalStateIff | packages/commerce/src/transaction/index.ts:161-226 | a committed, rolled-back or manual-review state stays as it is if and only if no bank-pending charge ends afterwards |
| Transaction.LateChargeReopensCommit | packages/commerce/src/transaction/index.ts:161-163 | such a run |
| EventBus.EmitConserves | packages/core/src/events/bus.ts:147-182 | in every interleaving: failures equal dead letters equal this emission's queue entries, deliveries and dead letters add up to the turns exactly when no budget is negative, and calls stay within the budget |
| EventBusListeners.TurnsAreRegistered | packages/core/src/events/bus.ts:142-150 | in every interleaving the turns of an emit are exactly those of the listeners given to `on` for its event since the last `off`, in order |
| EventBusListeners.BudgetsAreGiven | packages/core/src/events/bus.ts:149-149 | a turn's budget is the retries last given for its listener before it began, or 3 |
| EventBusListeners.EmitReachesRegistered | packages/core/src/events/bus.ts:142-182 | so what a resolved emit reports adds up to the number of listeners registered, exactly when none of their budgets is negative |
| EventBusListeners.ListenersAreGiven | packages/core/src/events/bus.ts:198-217 | what is registered for an event is what was given since its last `off` |
| EventBus.DeadLettersAreExhausted | packages/core/src/events/bus.ts:162-174 | each queue entry records its own listener's budget plus one attempts |
| EventBus.FinishedStaysFinished | packages/core/src/events/bus.ts:158-174 | a listener that succeeded or was given up is never called again |
| EventBus.StepKeepsInv | packages/core/src/events/bus.ts:147-182 | each step keeps the counters and the queue in agreement |
| EventBus.DeliverAlone | packages/core/src/events/bus.ts:149-178 | the retry loop of one listener: first success or budget exhausted, neither for a negative budget |
| EventBus.Bus.Emit | packages/core/src/events/bus.ts:142-150 | the method takes the step that gives every listener of the event its first turn |
| EventBus.Bus.On | packages/core/src/events/bus.ts:198-210 | the method takes the registration step |
| EventBus.Bus.BeginTurn | packages/core/src/events/bus.ts:152-157 | the method takes the step that calls a listener or finds its budget negative |
| EventBus.Bus.ListenerReturns | packages/core/src/events/bus.ts:158-159 | the method takes the delivery step |
| EventBus.Bus.ListenerThrows | packages/core/src/events/bus.ts:160-176 | the method takes the failure step: dead letter or backoff |
| EventBus.Bus.BackoffEnds | packages/core/src/events/bus.ts:176-176 | the method takes the step back to the loop condition |
| WebhookDedup.DuplicateIffStillMarked | packages/commerce/src/webhooks/dedup.ts:33-48 | under a monotone clock the evicting cache answers exactly whether the last mark's time to live has not passed |
| WebhookHistory.DuplicatesFromEvents | packages/commerce/src/webhooks/dedup.ts:33-100 | in every interleaving a delivery is a duplicate if and only if the last event to mark its id, directly or for 24 hours by a handler that succeeded, marked it beyond now; otherwise it is handled when it has a handler |
| WebhookHistory.EndedNotRunning | packages/commerce/src/webhooks/dedup.ts:96-97 | a handler that returned or threw is over |
| WebhookHistory.NewMark | packages/commerce/src/webhooks/dedup.ts:96-99 | which events mark an id, and until when; a handler that throws marks nothing |
| WebhookDedup.StepRefines | packages/commerce/src/webhooks/dedup.ts:23-48 | every step keeps the cache a faithful summary of the full mark history |
| WebhookDedup.ProcessedOncePerTtl | packages/commerce/src/webhooks/dedup.ts:88-100 | in every interleaving a duplicate verdict follows a success of that id within its time to live, and successes that do not overlap are at least that far apart |
| WebhookDedup.OverlapIff | packages/commerce/src/webhooks/dedup.ts:88-100 | a second delivery during a run is handled too if and only if no earlier mark still counts; after the run, if and only if its time to live has passed |
| WebhookDedup.OverlapProcessesTwice | packages/commerce/src/webhooks/dedup.ts:91-97 | two overlapping deliveries of one id are both processed |
| WebhookDedup.EvictionForgetsIff | packages/commerce/src/webhooks/dedup.ts:23-39 | for any two clock readings, eviction changes the answer if and only if the mark expires between them |
| WebhookDedup.BackwardClockForgets | packages/commerce/src/webhooks/dedup.ts:23-39 | when the clock goes back, eviction forgets an id that is still marked |
| WebhookDedup.Dedup.Handle | packages/commerce/src/webhooks/dedup.ts:80-82 | a provider's handler is added and no other changes |
| WebhookDedup.Dedup.EvictExpired | packages/commerce/src/webhooks/dedup.ts:23-28 | the loop removes exactly the expired entries |
| WebhookDedup.Dedup.IsDuplicate | packages/commerce/src/webhooks/dedup.ts:33-39 | evicts, then answers whether a fresh entry remains |
| WebhookDedup.Dedup.MarkProcessed | packages/commerce/src/webhooks/dedup.ts:44-48 | binds the id's key to its expiry and nothing else |
| WebhookDedup.Dedup.Receive | packages/commerce/src/webhooks/dedup.ts:88-96 | the part before the handler: duplicate, no handler or call it |
| WebhookDedup.Dedup.HandlerReturned | packages/commerce/src/webhooks/dedup.ts:97-99 | the part after the handler: the id is marked for the default time |
| WebhookDedup.KeyInjective | packages/commerce/src/webhooks/dedup.ts:35-35 | different ids have different cache keys |
| Money.Allocate | packages/finance/src/money/index.ts:79-116 | both errors; with products below 2·10^27 minor units the split loses nothing, every bucket but the first is its exact floor and the first gains less than the number of buckets |
| Money.MinorTotalExact | packages/finance/src/money/index.ts:88-92 | an amount of at most 28 digits has its exact floor as minor total, although the product is rounded first |
| Money.FromMinorExact | packages/finance/src/money/index.ts:112-115 | a share is exactly the amount of its minor units |
| Money.LongAmountRoundsUp | packages/finance/src/money/index.ts:88-92 | an amount of 29 nines is allocated as the next whole unit |
| Decimals.AddExact | packages/finance/src/money/index.ts:43-49 | a sum of at most 28 digits is exact |
| Decimals.SubtractExact | packages/finance/src/money/index.ts:51-57 | a difference of at most 28 digits is exact |
| Decimals.MultiplyExact | packages/finance/src/money/index.ts:63-68 | a product with a whole number, of at most 28 digits, is exact |
| Money.AllocateIntegers | crates/formula-engine/src/lib.rs:143-162 | the truncating split always sums to the amount, and is that same split if and only if the amount is not negative or every later bucket divides exactly |
| Money.AllocateDoubles | packages/core/src/native/bridge.ts:158-164 | the fallback is that same split while products are below 2^53 |
| Money.RoundedPortionExact | packages/finance/src/money/index.ts:94-99 | within that bound, floor of the rounded quotient is the floor of the true quotient |
| Money.RoundedSplitIsFair | packages/finance/src/money/index.ts:94-110 | so the rounded computation is a fair split |
| Money.ConservedIff | packages/finance/src/money/index.ts:94-110 | while products have at most 28 digits, the shares sum to the amount if and only if no more buckets round up to the next unit than the floors leave over |
| Money.RoundedPortionIff | packages/finance/src/money/index.ts:94-99 | a bucket is its floor, or one unit more exactly when rounding reaches it |
| Money.PortionsFair | packages/finance/src/money/index.ts:101-110 | floors fall short by less than one unit per bucket, and the first bucket takes it up |
| Money.FairSplitUnique | packages/finance/src/money/index.ts:79-116 | amount and ratios determine the fair split, so implementations that are fair agree |
| Money.TruncatedSplitFair | crates/formula-engine/src/lib.rs:149-159 | exactly when truncation gives the fair split |
| Money.NegativeAmountsDisagree | crates/formula-engine/src/lib.rs:149-159 | on minus one in halves the two implementations differ |
| Money.OutOfRangeInventsMoney | packages/finance/src/money/index.ts:94-110 | such a case just past the exact range: two equal shares sum to one unit more than the amount |
| Rounding.RoundQuotientNearest | packages/finance/src/money/index.ts:6-8 | rounded division gives the nearest number of the working precision, even significand on a tie, for quotients of every size |
| Rounding.RoundExactIff | packages/finance/src/money/index.ts:6-8 | rounding leaves a quotient of any size alone if and only if it is a significand that fits over, or times, a power of the base |
| Rounding.RoundedFloor | packages/finance/src/money/index.ts:94-99 | flooring after rounding equals flooring, below twice the significand range |
| Rounding.RoundedFloorIff | packages/finance/src/money/index.ts:94-99 | for every quotient below the largest significand, flooring after rounding gives the floor, or one more exactly when the gap to the next integer is rounded away |
| Rounding.HalfEvenIsNearest | crates/formula-engine/src/lib.rs:124-124 | half-even rounding is within one half, and even at one half (IEEE 754-2008, section 4.3.1) |
| Rounding.NearestEvenUnique | crates/formula-engine/src/lib.rs:124-124 | and is the only such integer |
| FormulaEngine.MinorUnitsRoundTrip | crates/formula-engine/src/lib.rs:86-101 | printing minor units and parsing them back is the identity on every i64, at any number of decimals |
| FormulaEngine.PrintFixedRoundTrip | crates/formula-engine/src/lib.rs:96-101 | signs, leading zeros and padding included, a fixed-point string parses to the number it printed |
| FormulaEngine.ParseNumeral | crates/formula-engine/src/lib.rs:86-87 | an optional sign, digits and a point in any place are read as the number they write |
| FormulaEngine.ParsesIff | crates/formula-engine/src/lib.rs:86-87 | and no other string is read |
| FormulaEngine.ExtraDecimalsDropped | crates/formula-engine/src/lib.rs:89-91 | digits behind the minor unit are dropped, towards zero, and a result beyond i64 is 0 |
| FormulaEngine.MissingDecimalsAreZero | crates/formula-engine/src/lib.rs:89-91 | an amount with too few decimals is filled up with zeros |
| FormulaEngine.PrintedAmounts | crates/formula-engine/src/lib.rs:96-101 | 1999 and -5 cents as 19.99 and -0.05 |
| FormulaEngine.MultiplyRoundsOnce | crates/formula-engine/src/lib.rs:118-130 | by any decimal factor: the exact product rounded once, and 0 beyond i64 |
| FormulaEngine.BasisPointsRoundOnce | crates/formula-engine/src/lib.rs:135-138 | the four-digit rate string loses nothing: the result is the exact product rounded once, in every mode |
| FormulaEngine.BasisPointsFitMantissa | crates/formula-engine/src/lib.rs:118-121 | for every i64 and u32 the product fits a 96-bit mantissa, so it is exact |
| FormulaEngine.BankersNearest | crates/formula-engine/src/lib.rs:118-138 | bankers mode is within one half of minor·bp/10000 and even at one half |
| FormulaEngine.HalfUpNearest | crates/formula-engine/src/lib.rs:118-138 | half-up mode is within one half, and away from zero at one half |
| FormulaEngine.TruncatedTowardZero | crates/formula-engine/src/lib.rs:118-138 | truncating keeps the sign and drops less than one unit |
| FormulaEngine.BankersMonotone | crates/formula-engine/src/lib.rs:118-138 | a larger amount never has a smaller result |
| FormulaEngine.BankersOdd | crates/formula-engine/src/lib.rs:118-138 | negating the amount negates the result |
| Inventory.Inventory.ReceiveStock | examples/inventory/src/index.ts:65-90 | units and rounded value are added to the record, which keeps its name and reorder point, or a record is made |
| Inventory.Inventory.SellStock | examples/inventory/src/index.ts:98-138 | both errors exactly; otherwise the cost split off by `allocate` leaves units and value, and revenue and margin are the rounded product and difference |
| Inventory.ValueConserved | examples/inventory/src/index.ts:65-138 | over every run in which the value on hand has at most 28 digits after each delivery, at the decimals of the unit costs, and its minor units times the units on hand are below 2·10^27 before each sale: value received is exactly the reported costs plus the value on hand, which is not negative |
| InventoryUnits.UnitsConserved | examples/inventory/src/index.ts:65-138 | over every run a product is known if and only if it was delivered, under the name and reorder point of its first delivery, and units received are units on hand plus units of the sales that went through |
| InventoryUnits.SellsIffUnitsLeft | examples/inventory/src/index.ts:104-109 | a sale goes through if and only if its units are at most those received and not sold before it, and changes nothing otherwise |
| Inventory.PrecisionSuffices | examples/inventory/src/index.ts:65-138 | a condition on the inputs alone that gives this: the totals ever received stay within those bounds |
| Inventory.LongSumLosesValue | examples/inventory/src/index.ts:69-76 | two deliveries of 28 and 3 digits that together need 30 lose the smallest part |
| Inventory.SaleIsFair | examples/inventory/src/index.ts:113-118 | a sale's cost is the floor of its share or one minor unit more, never exceeds the pool, leaves exactly the rest, and selling the last unit leaves less than one minor unit |
| Inventory.CostBounds | examples/inventory/src/index.ts:113-113 | the two-bucket split in minor units |

## Left out

- SqlScoping.InjectScopes: reads SQL as words, doubled-quote literals and symbols with nested parentheses, brackets and CASE, with the SELECT clauses of PostgreSQL; comments, quoted identifiers, keywords used as names, joins' ON conditions and subqueries of their own are not read, and a test is any run of tokens between connectives. When the insertion point is in a literal, tenant ids that are empty, have quotes or mention org_id are not covered.
- SqlFilterMeaning.WhereScopes: row meaning is abstract (any assignment of truth to tests); three-valued logic and which table a column belongs to are not modelled.
- SqlStatement.CombinedLeaks: a statement with UNION, EXCEPT or INTERSECT is scoped when each of its SELECTs is.
- SqlFilters.DollarTenantIsExpanded: for tenant ids with one pattern; `SqlFilters.TenantIsExpanded` is for all.
- SqlFilters.FindWhere: the `i` flag and `toLowerCase` fold ASCII letters only, which is what the keywords need.
- SqlTemplate.CompositionMeaning: numbers are unbounded, so the precision of `parseInt` above 2^53 is not modelled, and a template may have any number of strings and values.
- QueryPlanner.ClauseRoundTrip: for column names without spaces and operators with their own kind of value; other pairs render to nothing, as in the code.
- LedgerTamper.TamperEvidence: the digest is an arbitrary function and its failures are the stated alternatives; SHA-256 itself is not modelled.
- Ledger.LedgerWriter.Write: the read-write lock and the lock-free queue are each one atomic step.
- Scheduler.Scheduler.Poll: jobs of equal time and priority come out in some order; the standard heap's own choice, its spare capacity and the mutex are not modelled.
- BankRetry.RetryGuarantees: entries are named by index in order of creation, time is a number of milliseconds, and `onResolved` is recorded rather than run.
- EventBus.EmitConserves: the event's envelope, its context services and the length of each backoff delay are left out, and emissions, listeners and retries are numbered.
- WebhookDedup.ProcessedOncePerTtl: for marks made by deliveries; direct marks with another time to live are covered by `DuplicateIffStillMarked` only.
- Transaction.RunTransaction: one provider throughout; amounts, journal ids, licence keys and expiry dates carry no decision and are left out.
- Money.Allocate: ratios are natural numbers; the sum of the shares and the remainder are exact integers, where the source rounds those beyond 28 digits.
- Money.AllocateIntegers: i64 and u32 overflow is not modelled.
- Money.AllocateDoubles: products beyond 2^53 are not modelled.
- FormulaEngine.MinorUnitsRoundTrip: the number of decimals stands for the currency table; underscores, exponents and more than 28 digits in decimal strings are not read, and a conversion beyond i64 gives zero as in the code.
- Inventory.Inventory.SellStock: the low-stock event is returned as a flag.
- Money's `toMinorUnits`, comparison and display, `validate_double_entry`, currency tables, licence expiry and the remaining bridge fallbacks would only add easy members or belong to foreign libraries.
- HTTP, authentication, context propagation, logging, storage backends and payment provider bodies are input and output around these kernels.
