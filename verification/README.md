# Modary, verified models

Modary is a Go framework for modular monoliths: modules register Actions, a
governed runtime previews and executes them over transactional stores, and a
host starts and stops the modules. This project models the parts of it whose
correctness is not visible in any one function, and proves what they promise.

| module files | part of the system |
|---|---|
| `GovernedTypes`, `GovernedProtocol`, `GovernedTheorems` | Preview and Execute over the plan and idempotency stores, as interleaved steps over committed state and per-transaction overlays |
| `TransactionGuard`, `NestedTransactions` | the exactly-once callback guard against an arbitrary transaction manager, the two outcome-classifying layers, rollback-only nesting |
| `Leases`, `HostLifecycle`, `HostTheorems` | the facade gate, the Action lease registry, and every interleaving of start, migration, shutdown and cleanup |
| `ModuleGraph`, `Ordering` | capability resolution and the dependency search |
| `Common`, `Sequences` | an option type and small facts about sequences and sets |
| `Decimals`, `Numbers`, `Documents` | exact number canonicalization, bounded decoding, canonical documents |
| `Pointers`, `SchemaGraph`, `SchemaCost`, `PreparedCost` | JSON Pointers, the schema graph, same-instance cost |
| `ReferenceWriting`, `HiddenTargets`, `Rebase`, `SchemaMeaning`, `GrammarPlaces`, `EmbeddedMeaning`, `TangledSchemas`, `QuotedSchemas` | embedding a schema with its references, and what an evaluator reads of it before and after |
| `TypeScript` | the JSON Schema to TypeScript compiler |
| `Migrations` | migration history |
| `SqlLexer`, `SqlPolicy`, `SqlTriggers` | the SQL lexer, the statement validators, and the grammar of trigger bodies |
| `Generation` | multi-file replacement with rollback |
| `ErrorWalk` | the bounded walk over error graphs |

Objects that the program updates in place are classes whose methods are proved
against functions on values (`IdempotencyStore`, `PlanStore`, `ExactlyOnce`,
`Binding`, `AssemblyGate`, `ActionRegistry`, `HostResources`, `Dfs`, `Decoder`,
`Analysis`, `Builder`, `MigrationStore`, `Disk`); the theorems are about those
functions and about whole runs of the state machines built from them.

Conventions. SHA-256 is a constructor that carries what was hashed, so equal
digests mean equal material. Time, randomness, handler results, authorization
decisions, I/O failures and the moves of a transaction manager are arbitrary.
Strings are sequences of characters compared position by position, which is both
`sort.Strings` and `ORDER BY` in the migration registry.

## Findings

Where the code does not do what its surroundings promise, the model follows the
code, a lemma gives an input, and another lemma states exactly when the promise
holds.

- A transaction callback can run after the manager has returned and before the
  guard closes, and the call still reports success (`EscapeUnnoticed`). A manager
  that returns nil is safe from this exactly when, at its return, the operation
  has ended or a second invocation has ruled success out
  (`ReturnIsTimelyExactly`).
- Normalizing a number with an exponent next to the least 64-bit integer
  overflows an addition and crashes (`CrashHappens`); `NormalizeFailsExactly`
  gives the exact condition.
- Embedding a schema can leave a stale reference in a hidden copy, when a
  structural location is also a subschema of a hidden one (`TangledIsStale`,
  `EmbedTangled`). `ReferenceInHiddenCopyExactly` says exactly when a subschema's
  reference in a hidden copy leads to the new place of its target.
- Embedding is documented to leave literals untouched, and does so for
  structural locations (`StructuralValuesKept`). It rewrites a reference inside a
  constant when the schema that holds the constant is hidden and the reference is
  itself a target, and then the meaning of the copy changes (`QuotingIsMisread`,
  `EmbedQuoting`): the constant of the original no longer equals the one in the
  copy (`QuotingConstant`). `MeaningKeptExactly` is the equivalence.
- `"0"`, `"+0"`, `"-0"` and `"+00"` all name the first array element
  (`SignedIndexAliases`), so a location can be admitted to the schema graph under
  several spellings. `IndexExactly` lists all spellings, `OnePlaceExactly` says
  when two pointers reach one place, and pointers without signs that reach one
  place are equal (`UnsignedPlacesUnique`).
- A `$ref` beside other keywords compiles to a type that valid values need not
  inhabit (`SiblingsAreUnsound`). It is sound exactly when no keyword that the
  compiler reads stands beside it, or a `oneOf` whose branches admit every value
  (`RefSiblingsExactly`).

## Model

| member | source | states |
|---|---|---|
| `GovernedTheorems.AtMostOnce` | internal/actionruntime/runtime.go:340-509 | in every interleaving of calls, at most one handler effect is committed for an idempotency key, exactly when the key's record is committed, and no committed record is left running |
| `GovernedTheorems.EveryEffectGoverned` | internal/actionruntime/runtime.go:393-509 | the transaction of every committed handler effect is exactly an allowed intent, an allowed impact on the executed plan's own impact within the row limit and with the plan's fingerprint, reservation, handler, completion and the allowed audit event, and the stored record carries that result |
| `GovernedTheorems.RequiredPreviewHappened` | internal/actionruntime/runtime.go:590-634 | whenever a committed transaction ran the handler of an Action that requires Preview, an earlier committed Preview saved the executed plan for the same Action, version, contract, actor, channel, scope and input, and the plan was unexpired when loaded |
| `GovernedTheorems.AnswersAgree` | internal/actionruntime/runtime.go:905-958 | any two successful answers for one key carry the same result and the same input, it is the stored result, and exactly one effect was committed |
| `GovernedTheorems.CommitsAreDurable` | components/governedpostgres/idempotency_store.go:39-176 | later steps never change a committed transaction or a completed record |
| `GovernedTheorems.ExecutionHappens` | internal/actionruntime/runtime.go:297-509 | for every request with a key and without a plan hash, under any contract that does not require Preview, there is a run that commits its effect once and answers with its result |
| `GovernedTheorems.RunKeepsInv` | internal/actionruntime/runtime.go:145-509 | every reachable state satisfies the protocol invariant: overlays hold only uncommitted rows, no two transactions hold one row, and every call's trace is a prefix of a governed execution, replay or Preview |
| `GovernedTypes.ReservationLifecycle` | components/governedpostgres/idempotency_store.go:39-176 | reserve, then complete or abort, is exclusive: a second reservation sees the first, completion needs the matching running row, and abort after a reservation restores the table |
| `GovernedTypes.Authorized` | internal/actionruntime/runtime.go:757-800 | a normalized decision is allowed, for the required permission, and carries a fingerprint |
| `GovernedTypes.AuthorizedImpact` | internal/actionruntime/runtime.go:833-852 | an accepted impact decision is within the row limit and agrees with the expected fingerprint |
| `GovernedTypes.ReplayedResult` | internal/actionruntime/runtime.go:905-958 | a stored result is replayed only from a completed record with the same Action contract and input and with current authorization |
| `GovernedTypes.IdempotencyStore.Lookup` | components/governedpostgres/idempotency_store.go:19-37 | returns the row of the unique key, if any, and changes nothing |
| `GovernedTypes.IdempotencyStore.Reserve` | components/governedpostgres/idempotency_store.go:39-91 | inserts when the unique key is free, otherwise returns the existing row unchanged |
| `GovernedTypes.IdempotencyStore.Complete` | components/governedpostgres/idempotency_store.go:93-136 | completes exactly a matching running row and fails otherwise |
| `GovernedTypes.IdempotencyStore.Abort` | components/governedpostgres/idempotency_store.go:138-176 | deletes exactly a matching running row |
| `GovernedTypes.PlanStore.Save` | components/governedpostgres/plan_store.go:23-77 | saves a plan under its hash, and accepts an existing row only if it is the same plan |
| `GovernedTypes.PlanStore.Get` | components/governedpostgres/plan_store.go:79-164 | returns the plan stored under the hash |
| `GovernedTypes.PlanStore.DeleteExpiredPlans` | components/governedpostgres/plan_store.go:166-190 | deletes exactly the plans that expire at or before the given time, and counts them |
| `TransactionGuard.SuccessExactly` | internal/actionruntime/transaction.go:28-117 | against any manager, in both layers, success is returned exactly when the operation ran once, returned nil before the guard closed, and the manager returned nil without panicking |
| `TransactionGuard.OperationErrorExactly` | internal/actionruntime/transaction.go:28-117 | the operation's own error is surfaced exactly when it ran once and returned that error and the manager's error is rolled-back proof correlated with this run |
| `TransactionGuard.ProjectedProofIsGenuine` | internal/databasecontrol/transaction.go:31-156 | the database layer projects only the manager's own proof, and only for a run that it matches |
| `TransactionGuard.RunsAtMostOnce` | internal/callbackcontract/exactly_once.go:104-138 | the operation starts at most once however often and however concurrently the callback is invoked |
| `TransactionGuard.NoWorkAfterClose` | internal/callbackcontract/exactly_once.go:140-157 | once closing has finished, no operation work runs in any continuation |
| `TransactionGuard.LayersCompose` | internal/databasecontrol/transaction.go:31-136 | success of the outer layer over the inner one means one run at each layer and success of the real manager |
| `TransactionGuard.EscapeUnnoticed` | internal/callbackcontract/exactly_once.go:140-157 | a run in which the operation starts after the manager returned and success is reported |
| `TransactionGuard.ReturnIsTimelyExactly` | internal/callbackcontract/exactly_once.go:140-157 | for every run up to a nil return of the manager: in all continuations success means that the operation had ended before the return, exactly when at the return it has ended or a second invocation was seen |
| `TransactionGuard.ExactlyOnce.EnterInvocation` | internal/callbackcontract/exactly_once.go:104-138 | admits the first invocation while open and records repeated, concurrent and late ones |
| `TransactionGuard.ExactlyOnce.CloseGate` | internal/callbackcontract/exactly_once.go:140-157 | closes the guard once and tells whether an invocation is still active |
| `TransactionGuard.ExactlyOnce.Invoke` | internal/callbackcontract/exactly_once.go:104-138 | an invocation runs the operation only if admitted, records its result unless the goroutine exits, and always leaves |
| `NestedTransactions.WithinTransaction` | components/governedpostgres/executor.go:94-184 | for every finite tree of nested calls, commit is attempted exactly when no call in the tree failed or panicked, and otherwise the rollback carries the root's error or the first nested cause |
| `NestedTransactions.FirstCauseIsFirst` | components/governedpostgres/executor.go:169-184 | the recorded cause is that of the earliest failing nested call and is never replaced |
| `NestedTransactions.NothingHidden` | components/postgres/backend.go:82-138 | the root attempts to commit exactly when every call executed in the tree, at any depth, ended fine, whatever the callers above it swallow |
| `NestedTransactions.Binding.Nested` | components/governedpostgres/executor.go:94-153 | a nested call appends exactly its own failures, in completion order, to the sticky cause |
| `NestedTransactions.Binding.MarkRollbackOnly` | components/governedpostgres/executor.go:169-175 | sets the cause only if none is set |
| `HostTheorems.NoLeaseOnceCleaning` | module/host.go:690-810 | in every interleaving, once the first cleanup callback has begun no facade lease and no Action lease is held, then or at any later time |
| `HostTheorems.ChannelsCloseOnce` | module/lifecycle.go:50-105 | the two drained channels, the start channel and the shutdown channel are closed at most once, the drained ones exactly when their boundary is revoked and empty |
| `HostTheorems.CleanupsReverseRegistration` | module/host.go:774-810 | cleanups are invoked in the reverse of their overall registration order, none twice, and all of them once the host has ended |
| `HostTheorems.ServicesConserved` | module/host.go:946-1046 | at all times the service table is the disjoint union of the services of modules not cleaned up, and it is empty once the host has ended |
| `HostTheorems.StopWhileStarting` | module/host.go:596-671 | a shutdown accepted while starting means that the host never runs and never holds a facade lease |
| `HostTheorems.TerminalIsFinal` | module/host.go:654-671 | stopped and failed are never left |
| `HostTheorems.LifecycleHappens` | module/host.go:496-810 | for any module there is a run that starts it, serves a facade call, shuts down and cleans up completely |
| `HostTheorems.RunKeepsInv` | module/host.go:372-810 | every reachable host state satisfies the control, lease, service and cleanup-order invariants |
| `HostTheorems.HostResources.CleanupAll` | module/host.go:774-810 | the cleanup loops invoke all callbacks in reverse order, go on after failures, report whether one failed, and empty the service table |
| `Leases.AssemblyGate.Acquire` | module/lifecycle.go:50-82 | a lease is granted exactly while the gate is open |
| `Leases.AssemblyGate.Release` | module/lifecycle.go:84-91 | gives back one lease and closes the drained channel exactly on the last release after revocation |
| `Leases.AssemblyGate.Revoke` | module/lifecycle.go:93-105 | closes the gate, and the channel if nothing is active, once |
| `Leases.ActionRegistry.Acquire` | internal/actionruntime/registry.go:144-179 | grants a lease under an identifier not in use, with 64-bit wrap-around, unless revoked |
| `Leases.ActionRegistry.Release` | internal/actionruntime/registry.go:181-201 | drops the lease and closes the drained channel once when revoked and empty |
| `Leases.ActionRegistry.RevokeAll` | internal/actionruntime/registry.go:91-107 | clears the bindings, refuses new leases and closes the channel if nothing is active |
| `Leases.ActionRegistry.BindPrepared` | internal/actionruntime/registry.go:64-89 | binds an Action exactly when not revoked and not bound yet |
| `ModuleGraph.VerifyExactly` | module/graph.go:25-117 | manifests that pass the static checks are accepted exactly when the requirement relation has no cycle, a reported cycle is one, and the order is duplicate-free, complete and has every provider before its requirers |
| `ModuleGraph.VerifyIgnoresArrangement` | module/graph.go:25-117 | the whole result does not depend on the order of manifests or of their lists |
| `ModuleGraph.SearchExactly` | module/graph.go:60-107 | the depth-first search succeeds exactly on acyclic graphs, with a topological order, and otherwise returns a cycle |
| `ModuleGraph.Verify` | module/graph.go:25-117 | the loops compute exactly the specified result |
| `ModuleGraph.Dfs.VisitModule` | module/graph.go:62-96 | the marking search over state map, stack and order computes the functional search and stops with the same cycle |
| `Numbers.NormalizeIsExact` | action/canonical.go:43-128 | the output is a JSON number that denotes the same rational as the input token |
| `Numbers.NormalizeExactlyEqual` | action/canonical.go:43-128 | two accepted tokens have the same output exactly when they denote the same rational, negative zero included |
| `Numbers.NormalizeIdempotent` | action/canonical.go:43-128 | an output within the byte limit normalizes to itself |
| `Numbers.NormalizeFailsExactly` | action/canonical.go:81-128 | a token is refused exactly for its length, and the program crashes exactly when the padded length overflows |
| `Numbers.CrashHappens` | action/canonical.go:119-121 | a token whose normalization crashes |
| `Numbers.NormalizeJSONNumber` | action/canonical.go:43-79 | the scanning and trimming statements compute the specified normalization |
| `Numbers.RenderReduced` | action/canonical.go:81-128 | the rendering branches compute the specified spelling |
| `Documents.DecodeExactly` | internal/jsonvalue/jsonvalue.go:53-156 | decoding accepts exactly the encodings of syntax trees without duplicate members whose depth, node count and number lengths are within the limits, and returns their value |
| `Documents.CanonicalInputIdempotent` | internal/actionruntime/runtime.go:1142-1199 | canonicalization of an accepted input is idempotent |
| `Documents.CanonicalInputExactly` | internal/actionruntime/runtime.go:1142-1199 | two accepted inputs have the same canonical form exactly when they are the same JSON value up to member order and number spelling |
| `Documents.WriteReadsBack` | internal/actionruntime/runtime.go:1142-1166 | a value written with sorted members reads back as itself |
| `Documents.EncodeInjective` | internal/jsonvalue/jsonvalue.go:95-156 | no two syntax trees have the same token stream |
| `Documents.Decoder.DecodeValue` | internal/jsonvalue/jsonvalue.go:95-156 | the token-consuming decoder with its shared node budget computes the specified decoding |
| `Pointers.ReferenceRoundTrip` | internal/jsonschema/graph.go:586-679 | printing any token list as a URI fragment and parsing it gives that list back (sections 3, 4 and 6 of RFC 6901) |
| `Pointers.PointerKeyInjective` | internal/jsonschema/graph.go:652-663 | different token lists have different keys |
| `Pointers.EscapeRoundTrip` | internal/jsonschema/graph.go:617-679 | unescaping undoes the two replacement passes of escaping |
| `Pointers.PercentRoundTrip` | internal/jsonschema/graph.go:665-671 | percent-decoding undoes the fragment encoding |
| `Pointers.SignedIndexAliases` | internal/jsonschema/graph.go:641-650 | every array element also answers to its position with a plus sign and any leading zeros, and the first one to a minus sign and zeros |
| `Pointers.IndexExactly` | internal/jsonschema/graph.go:641-650 | a token names a position exactly when it is the plain decimal, a plus sign and digits of that value, or for zero a minus sign and zeros |
| `Pointers.UnsignedIndexUnique` | internal/jsonschema/graph.go:641-650 | two tokens without sign that name one element are equal |
| `ReferenceWriting.OnePlaceExactly` | internal/jsonschema/embed.go:170-191 | two token lists reach one place exactly when they agree up to the spelling of array positions |
| `ReferenceWriting.UnsignedPlacesUnique` | internal/jsonschema/embed.go:170-191 | two token lists without signs that reach one place are equal |
| `SchemaGraph.Prepare` | internal/jsonschema/graph.go:53-90 | a document is accepted exactly when it has a closed graph within the size limit in which chains of subschemas and references reach every location, and every step from it, within the depth limit; the result records every location once with its value, references lead to the locations they name, grammar, same-instance and branch edges to exactly the subschemas of their kind, and primary marks are exactly on the structural locations |
| `SchemaGraph.Shortest` | internal/jsonschema/graph.go:74-80 | the queue records every location no deeper than any chain of subschemas and references from the root |
| `SchemaGraph.Builder.AddNode` | internal/jsonschema/graph.go:104-125 | a location is recorded once and found again under its pointer |
| `SchemaGraph.Builder.InspectNode` | internal/jsonschema/graph.go:139-186 | an inspected node has its reference target and all its grammar children, and no other node changes |
| `SchemaGraph.Builder.CollectGrammarChildren` | internal/jsonschema/graph.go:188-319 | the edges of a node lead to exactly the subschemas of the Draft 7 keyword grammar, and its same-instance and branch edges to exactly those of that role |
| `SchemaGraph.MarkPrimaryNodes` | internal/jsonschema/graph.go:447-474 | the stack loop marks exactly the locations that grammar paths reach from the root |
| `SchemaCost.CheckExactly` | internal/jsonschema/graph.go:496-554 | the analysis accepts exactly when the same-instance graph is acyclic and every location's full unfolding has at most the permitted visits, despite sharing and saturation |
| `SchemaCost.CheckSameInstanceExpansion` | internal/jsonschema/graph.go:496-554 | the same for the marking and memoizing implementation |
| `SchemaCost.EveryLocationUnfolds` | internal/jsonschema/graph.go:496-554 | in an acyclic graph every location has the finite unfolding that the bound speaks about |
| `SchemaCost.CycleHasNoUnfolding` | internal/jsonschema/graph.go:496-506 | a location on a cycle has no finite unfolding |
| `SchemaCost.BoundedAddIsCapped` | internal/jsonschema/graph.go:835-840 | saturating addition decides exactly whether the true sum is within the limit |
| `SchemaCost.Analysis.CostOf` | internal/jsonschema/graph.go:496-545 | the state and memo arrays follow the functional analysis |
| `PreparedCost.CostGraphClosed` | internal/jsonschema/graph.go:496-554 | every edge of the cost graph of a prepared schema stays inside it |
| `PreparedCost.CostEdgesExactly` | internal/jsonschema/graph.go:188-319 | the cost graph has an edge exactly from a reference to its target and from any other schema to the subschemas that see the same instance, conditional branches only beside an `if` |
| `PreparedCost.PrepareWithLimits` | internal/jsonschema/graph.go:53-90 | a document is accepted exactly when it has a closed graph within the limits in which no value visits more schemas than permitted, and the result is such a graph, prepared |
| `PreparedCost.CostsAgree` | internal/jsonschema/graph.go:496-554 | whether the visits are within the bound does not depend on which permitted graph of the document is looked at |
| `SchemaCost.RenamedIsBounded` | internal/jsonschema/graph.go:496-554 | a graph that can be renamed into a bounded one is bounded |
| `Rebase.Rebase` | internal/jsonschema/embed.go:14-117 | on a prepared graph embedding fails only for a bad pointer or an empty name, and otherwise yields the schema with exactly its primary references rewritten plus one copy of every hidden owner under a free member |
| `Rebase.LocationHoldsCopy` | internal/jsonschema/embed.go:14-117 | in any document that holds the result at the pointer, the new place of every location holds that location's value with only the references of nodes of its copy replaced |
| `Rebase.ReferenceLeadsToCopy` | internal/jsonschema/embed.go:41-75 | every rewritten reference parses back to the new place of its original target |
| `Rebase.GrammarFollows` | internal/jsonschema/embed.go:80-117 | a subschema is at its copy's place relative to its parent exactly unless the parent is hidden and the subschema structural |
| `Rebase.SubschemasFollow` | internal/jsonschema/embed.go:80-117 | with no structural location below a hidden one, all subschemas follow their parents |
| `Rebase.ReferenceInHiddenCopy` | internal/jsonschema/embed.go:80-117 | the reference text of a subschema inside a hidden copy is the new one if a location of that copy has its place, and otherwise the old one |
| `Rebase.ReferenceInHiddenCopyExactly` | internal/jsonschema/embed.go:80-117 | such a reference leads to the new place of its target exactly when a location of the copy has its place or the target does not move |
| `EmbeddedMeaning.MeaningKeptExactly` | internal/jsonschema/embed.go:9-117 | with no structural location below a hidden one, everything an evaluator can read from any location, through subschemas and references to every depth, is the same before and after embedding, exactly when no reference inside a value of a hidden location changes its text |
| `EmbeddedMeaning.StructuralValuesKept` | internal/jsonschema/embed.go:9-13 | what a structural location holds beside its subschemas and its reference is the same after embedding |
| `EmbeddedMeaning.CopyBareExactly` | internal/jsonschema/embed.go:85-113 | for any location that holds exactly when every reference of a location of the same copy inside it keeps its text |
| `GrammarPlaces.StructuralOutside` | internal/jsonschema/graph.go:188-319 | no structural location lies inside what another one holds beside its subschemas |
| `SchemaMeaning.RewritingKeepsSubschemas` | internal/jsonschema/embed.go:58-113 | rewriting references moves, adds and removes no subschema |
| `SchemaMeaning.BareExactly` | internal/jsonschema/embed.go:58-113 | rewriting keeps what a schema holds beside its subschemas and its reference exactly when every reference rewritten in there keeps its text |
| `QuotedSchemas.QuotingIsMisread` | internal/jsonschema/embed.go:9-13 | a schema whose meaning changes wherever it is embedded, because a constant is rewritten |
| `QuotedSchemas.QuotingConstant` | internal/jsonschema/embed.go:94-113 | in every embedding of that schema the constant in the copy is another value than the constant of the original, with the reference to the new place in it |
| `QuotedSchemas.EmbedQuoting` | internal/jsonschema/embed.go:14-117 | embedding accepts that schema for every pointer and name that it accepts at all |
| `Rebase.HiddenCopiesDisjoint` | internal/jsonschema/embed.go:118-156 | locations of different owners are lexically disjoint, before and after embedding |
| `Rebase.RewriteReferences` | internal/jsonschema/embed.go:58-75 | the writes of one copy amount to one table of replaced references, two spellings of a place included |
| `ReferenceWriting.PutIsRewrite` | internal/jsonschema/embed.go:62-75 | an in-place write of one reference changes that reference and nothing else |
| `ReferenceWriting.AtRewritten` | internal/jsonschema/embed.go:170-191 | rewriting references keeps every other place where it was |
| `HiddenTargets.HiddenOwners` | internal/jsonschema/embed.go:121-156 | every hidden location gets exactly one owner above it and owners do not lie below one another |
| `HiddenTargets.OwnerIsShallowest` | internal/jsonschema/embed.go:118-156 | the owner is the shallowest hidden location above |
| `HiddenTargets.CollisionFreeName` | internal/jsonschema/embed.go:158-168 | the search ends, with the first name that no member has |
| `TangledSchemas.StructuralBelowHidden` | internal/jsonschema/embed.go:85-93 | a prepared schema in which a structural location is a subschema of a hidden one |
| `TangledSchemas.TangledIsStale` | internal/jsonschema/embed.go:85-93 | every embedding of that schema leaves the old reference in the hidden copy, and it does not lead to the new place of its target |
| `TangledSchemas.EmbedTangled` | internal/jsonschema/embed.go:14-117 | embedding accepts that schema for every pointer and name that it accepts at all |
| `TypeScript.CompileIsSound` | action/typescript.go:123-243 | whenever compilation succeeds and every reference, at any depth, has no sibling that the compiler reads or a `oneOf` that admits every value, every value valid under the schema inhabits the type, for any reference targets and any meaning of other keywords |
| `TypeScript.SoundWithoutSiblings` | action/typescript.go:123-243 | the same for schemas in which no reference has siblings |
| `TypeScript.LiteralExactly` | action/typescript.go:245-267 | the type of a literal holds exactly the values equal to it |
| `TypeScript.RefSiblingsExactly` | action/typescript.go:123-160 | a reference with any siblings is compiled soundly exactly when it has no `const`, no array `enum`, no array `oneOf` and no `type` that the compiler reads, or has a `oneOf` that is read and whose branches together admit every value |
| `TypeScript.LooseIsUniversal` | action/typescript.go:123-160 | under that condition the compiled type admits every value |
| `TypeScript.TightIsNarrow` | action/typescript.go:123-160 | otherwise some value is outside the compiled type |
| `TypeScript.SiblingsAreUnsound` | action/typescript.go:123-160 | a reference beside a type, and a valid value outside the type |
| `TypeScript.SchemaNodeTypeScript` | action/typescript.go:123-234 | the recursive routine with its loops computes the specified type or fails with it |
| `Migrations.HistoryIsLastSource` | internal/databasecontrol/migration.go:54-125 | after any run of calls, a module's recorded history is its last committed source and exactly those scripts were executed, once each and in order |
| `Migrations.CommitsFormChain` | internal/databasecontrol/migration.go:94-110 | the sources committed for a module form a chain of prefixes |
| `Migrations.HistoryIsAppendOnly` | internal/databasecontrol/migration.go:54-125 | further calls only extend histories |
| `Migrations.FailureChangesNothing` | internal/databasecontrol/migration.go:54-125 | an acknowledged call has recorded its whole source, and a failed call changes nothing unless only the acknowledgement was lost |
| `Migrations.SucceedsExactly` | internal/databasecontrol/migration.go:54-190 | without outside faults a call succeeds exactly when its source is readable and accepted and extends the module's last committed source |
| `Migrations.SourceIsOk` | internal/databasecontrol/migration.go:127-190 | an accepted source is strictly ordered by id, within the file limit, and its ids belong to its module alone |
| `Migrations.HistoryIsRecorded` | internal/databasecontrol/migration.go:285-322 | the ordered query returns the recorded migrations in source order |
| `Migrations.MigrationStore.Apply` | internal/databasecontrol/migration.go:54-125 | the loops and the transaction compute the specified outcome |
| `SqlLexer.TokenizeExactly` | internal/sqlpolicy/tokens.go:31-115 | a text is accepted exactly when it is made up of lexemes by longest match, and yields the tokens of that reading |
| `SqlLexer.ReadingIsUnique` | internal/sqlpolicy/tokens.go:31-115 | a text has at most one reading |
| `SqlLexer.SeparatorsExactly` | internal/sqlpolicy/tokens.go:31-115 | every semicolon is either one separator or inside a string, a quoted name or a comment |
| `SqlLexer.QuoteRoundTrip` | components/governedpostgres/options.go:100-102 | a quoted name without NUL reads back as that one identifier |
| `SqlLexer.TokenizeText` | internal/sqlpolicy/tokens.go:31-183 | the index-driven scanner computes the specified tokens |
| `SqlPolicy.ValidateMigrationScript` | internal/sqlpolicy/migration.go:22-163 | accepts exactly the scripts of the durable profile, trigger bodies with nested CASE and END included |
| `SqlPolicy.ConsumeTrigger` | internal/sqlpolicy/migration.go:107-163 | finds the one prefix that is a complete trigger, or there is none |
| `SqlPolicy.ConsumeOrdinaryStatement` | internal/sqlpolicy/migration.go:91-105 | finds the one prefix that is a complete ordinary statement, or there is none |
| `SqlPolicy.CompleteUnique` | internal/sqlpolicy/migration.go:22-163 | at most one prefix of a token list is a complete statement |
| `SqlPolicy.ValidatePublicStatement` | internal/databasecontrol/access.go:219-255 | accepts exactly one statement of an allowed kind without the forbidden word, with at most one trailing separator |
| `SqlPolicy.HasTemporarySchemaReference` | internal/sqlpolicy/semantics.go:7-20 | finds a name spelt temp before a dot, quoted or not, if there is one |
| `SqlTriggers.TriggerExactly` | internal/sqlpolicy/migration.go:107-163 | the triggers that the scanner accepts are exactly those of a nested grammar: header, BEGIN, statements each closed by a separator, END, with CASE ... END expressions as trees |
| `SqlTriggers.BalancedExactly` | internal/sqlpolicy/migration.go:107-163 | the depth counter is back at zero exactly when the tokens read as nested CASE ... END expressions |
| `SqlTriggers.ValidateMigrationText` | internal/sqlpolicy/migration.go:22-163 | a text is accepted exactly when it is within the limit and reads as lexemes that form statements of the durable profile, triggers by the nested grammar |
| `SqlTriggers.ValidatePublicSQL` | internal/databasecontrol/access.go:206-255 | a text is accepted exactly when it is within the limit and reads as one statement of an allowed kind |
| `Generation.GenerateContext` | projecttool/generate.go:257-436 | on success exactly the differing artifacts are replaced and no other file changes; on failure files, modes and directories are what they were unless a step of the undoing itself failed from outside, whatever failed before, and the report of a complete undo is exact; and it succeeds when nothing fails from outside and no path is in the way |
| `Generation.OverlayMeans` | projecttool/generate.go:285-436 | after a success every artifact path holds its rendered bytes and every other path its old file |
| `Generation.PrepareAll` | projecttool/generate.go:336-362 | prepares all directories and temporary files, and without outside failures stops only at a file where a directory is needed |
| `Generation.Install` | projecttool/generate.go:390-403 | each rename installs the next artifact, and a failed one leaves the earlier ones installed and nothing else changed |
| `Generation.Rollback` | projecttool/generate.go:635-680 | undoing from any point gives back the prepared state unless an undo step fails from outside, and only such failures count as undo faults |
| `Generation.CleanupPrepared` | projecttool/generate.go:318-335 | removing temporaries and created directories gives back the original file system unless such a removal fails from outside |
| `Generation.EnsureDirectories` | projecttool/generate.go:508-545 | creates missing directories parent first and reports exactly those it created |
| `ErrorWalk.Walk` | internal/safeerr/safeerr.go:134-159 | on any error graph, cyclic ones included, the walk visits the first 64 positions of the preorder unfolding, or those up to the first match |
| `ErrorWalk.PreorderIsUnfolding` | internal/safeerr/safeerr.go:134-159 | the worklist order is the order of the untruncated unfolding |
| `ErrorWalk.CutIsInvisible` | internal/safeerr/safeerr.go:134-159 | cutting child lists to the remaining budget never changes what is visited |
| `ErrorWalk.Is` | internal/safeerr/safeerr.go:52-60 | finds a target exactly when it is among the visited positions |

## Left out

- HTTP serving, listeners, process probes, command-line parsing and rendering of templates: wiring and I/O.
- OIDC, telemetry, task queues and database drivers: foreign libraries.
- Timeouts, detached audit reporting and audit sinks: an audit failure is an arbitrary result, and time is an arbitrary input.
- Text, identifier, version and scope validators: flags or opaque predicates where a model needs them.
- The text level of JSON (escapes, white space, the document byte limit): documents are token streams of a JSON reader.
- The second copy of number canonicalization in internal/actionruntime/runtime.go: the same function.
- Collection, literal and numeric-work limits of schema preparation, the metaschema check and the rewriting of `$schema` to its canonical spelling: they only refuse documents or change one string.
- The text of TypeScript types, and the test that a number literal survives a round trip through a 64-bit float: types are syntax trees and that test is an arbitrary predicate.
- A nested transaction call with an executor of another backend: it returns an error at once and leaves the outer transaction unmarked.
- The JSON Schema validator: embedding is about everything that an evaluator can read, where the annotation that holds the hidden copies is not read, and for the compiler validity is defined for the keywords that the compiler reads, and everything else is an arbitrary predicate.
- Sharing between parallel goroutines inside one transaction: the calls of a transaction tree run one after another.
- Cleanup callbacks that outlive their timeout: cleanup order is the order in which callbacks are invoked.
- Migration scripts that change the migration registry themselves: a script is an opaque effect.
- External writers during generation: only the process itself changes the file system, and a temporary name that is also a configured path or a directory above one counts as a failed attempt.
- Staging, ACL and process files of the build command: operating-system identity.
