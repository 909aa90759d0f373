# Scrutinizer verification

Scrutinizer decides whether a Rust function is non-leaking. It first collects: starting from the
function, a dataflow analysis tracks which concrete types may hide behind type parameters, trait
objects and pointers, resolves every call with what it knows, analyzes the callees the same way and
stores one summary per function instance. Then it judges: a walk over the stored call graph carries
the locals that depend on sensitive arguments, and fails if they can reach a function it cannot
vouch for. This project models both phases and the codec that moves spans between sessions, and
proves what they guarantee.

Compiler queries (`Instance::resolve`, signatures, bodies, interior paths, field types) and the
information flow analysis are fields of the records `Mir.Tcx` and `ImportantLocals.FlowContext`:
every theorem holds for any answers, under the assumptions named in its `requires`. An `Option` or
an `ok` out-parameter stands for an operation that panics in the source; where the collector is not
ok, a `Failures.Failure` names the operation and how the analysis came to it. Sets iterated in hash
order are iterated in any order.

| file | contents |
|---|---|
| `Types.dfy` | type trees, substitution, the walk that skips repeated types |
| `TrackedTypes.dfy` | `Present`/`Erased`, join laws, tuple packing and spreading |
| `GenericExtraction.dfy` | recovering substitutions from argument types, candidate instances |
| `Mir.dfy`, `Domains.dfy`, `CollectorDomains.dfy` | places and bodies, the domain on values, the domain object |
| `FieldProjections.dfy` | what lies inside a type, in the compiler's terms, and that assignments make it known |
| `ProjectionClosure.dfy`, `ClosedSummaries.dfy` | what propagation into a place's interior maintains, from updates to summaries |
| `Transfers.dfy` | statement and call effects, monotonicity, the effects of a call as a set |
| `Dataflow.dfy` | engine runs: path soundness, least solution, order independence |
| `TypeSoundness.dfy`, `PathTypes.dfy` | tracked types against the types values really have, step by step and through executions |
| `UntouchedPlaces.dfy` | places a body does not write, such as captured variables |
| `FunctionStorage.dfy`, `ClosureStorage.dfy` | the two shared storages |
| `Resolution.dfy`, `Callees.dfy` | from a call site to the functions it may run; the same in the compiler's terms |
| `Evidence.dfy`, `Summaries.dfy` | what a stored summary rests on, and the storage invariant |
| `Failures.dfy`, `Collector.dfy` | where an analysis can panic, and the collector |
| `Ceilings.dfy` | programs whose collections meet finitely many things and do not panic |
| `Counterexamples.dfy`, `RecursivePrograms.dfy`, `EndlessPrograms.dfy` | concrete inputs on which expected properties fail |
| `ImportantLocals.dfy`, `Analyzer.dfy` | taint transition, the verdict and its lists |
| `EndToEnd.dfy` | from collection to verdict |
| `Executions.dfy`, `ExecutedPrograms.dfy` | executions of analyzed functions down stacks of calls and back; a program with such executions |
| `SpanCodec.dfy`, `TypeShorthands.dfy` | spans across sessions, types referred to by position |

A collection is one `Evidence.Ledger`: the stored summaries and the updates of the closure storage, in
order. A stored summary rests on a certificate: a chain of analyses that starts at the origin, in
which each next one is of a callee resolved at a call site the one before came to, and in which no
item of the recursion guard repeats; a run over the body up to the fixpoint, and the block ends. Every
recorded block transfer accounts for its call site against the stack of that chain and against the
closure storage as it was at that time, takes returned types from stored summaries, and has entered
what its closures capture.

Termination of a collection is proved for programs with a finite universe (`Summaries.Universe`):
finitely many items of the recursion guard, and per instance a set of states, closed under the
body's transfers, that know finitely many facts. Without it the source need not terminate: a
reference to a tracked place taken in a loop wraps its types at every round, and then no run reaches
a fixpoint (`NeverSettles`, `RunsOn`) and there is no universe (`NoUniverse`). The universe is a ghost argument;
`Ceilings.CeilingsGiveUniverse` gives one to every program in which finitely many functions occur and
each instance has a state that absorbs its own statements and calls.

## What turned out differently from what one would expect

- The compiler's walk skips types it has met, so extraction from `(i32, T)` with `T = i32` finds
  nothing (`RepeatedTypeIsNotExtracted`). It also yields lifetimes, which are all the same once
  erased, so the second one shifts the walk (`LifetimesMisalign`). `PeelInvertsUpToLifetimes` and,
  without lifetimes, `PeelInvertsSubstitution` give the exact condition.
- `join` is not associative when a `Present` stands in the middle (`JoinIsNotAssociative`,
  `JoinAssociatesExactly`).
- Packing operands of which one tracks nothing loses the arity (`PackingLosesTheArity`, `PackThenSpread`).
- Propagation follows a reference one step only, so the fields of a pointee can lag behind it
  (`FieldBehindReferenceLags`, `UpdateKeepsClosureEverywhereExactly`); arguments and captured
  variables do not propagate fields that hide something (`PointerFieldDoesNotArrive`,
  `AugmentKeepsClosureExactly`).
- Reading through a reference that was pointed elsewhere can yield a type that is not tracked for the
  place read into, so summaries need not admit the types values really have (`StaleRead`).
  `SummaryAdmitsActualTypes` says for every execution where they do: at the places that are known, which
  a field behind a re-pointed reference stays exactly if its type was tracked before (`BehindReferenceExactly`).
- Taking the address of a place of known type tracks nothing, neither does a constant whose type
  hides something, and a conversion is tracked with the type of what is converted
  (`AddressIsNotTracked`, `ConversionIsNotTracked`, `RvalueAdmitsExactly`). At a place whose declared type
  hides nothing that does no harm (`AssignmentAdmitsExactly`).
- The origin is looked up by first match: if it is entered again recursively with other argument
  types, the summary of that inner run is the one that is judged. This happens whenever the outer
  run records a call of its own instance (`RecursionIsJudgedInside`, `InnerRunIsJudged`); `Collect`
  says exactly when, and that it cannot if the origin's definition has a single item.
- The recursion guard compares definitions and tracked arguments but not type arguments. A generic
  function that calls itself at another type has that instance skipped and never analyzed
  (`OtherInstanceIsNeverAnalyzed`, `SkippedCalleeHasSummary`).
- A closure is analyzed with the captures known when its call was resolved. What is captured later
  is in the closure storage (`CapturesSurvive`), but a stored summary sees of it exactly what was tracked
  when its analysis started, if the body does not write its captures (`CaptureIsSeenExactly`).

## Model

| member | source | states |
|---|---|---|
| Types.WalkVisitsEverySubtermOnce | scrutils/src/common/tracked_ty.rs:7-18 | scanning the walk that skips repeats decides whether any subterm hides something |
| Types.HidesExactly | scrutils/src/common/tracked_ty.rs:7-18 | a type hides something exactly if the walk over it meets a type parameter, function pointer, raw pointer, trait object or foreign type, and no closure |
| Types.SubstIdentity | scrutils/src/collector/structs/partial_function_info.rs:256-262 | substituting parameters by themselves, or nothing, changes nothing |
| Types.SubstComposes | scrutils/src/collector/structs/partial_function_info.rs:256-262 | substituting twice is substituting what was substituted |
| Types.WalkIsDedup | scrutils/src/common/arg_tys.rs:62-74 | the compiler's walk yields what the plain pre-order walk does, each type at its first occurrence only |
| TrackedTypes.JoinInto | scrutils/src/common/tracked_ty.rs:50-62 | the insertion loop computes the join, and its flag is true exactly when a new type was inserted |
| TrackedTypes.JoinLaws | scrutils/src/common/tracked_ty.rs:50-62 | join is inflationary, idempotent, least for a set, and changes nothing exactly when nothing is new |
| TrackedTypes.ContributionsCommute | scrutils/src/common/tracked_ty.rs:50-62 | two contributions to one place commute whatever their shapes |
| TrackedTypes.JoinCommutesExactly | scrutils/src/common/tracked_ty.rs:50-62 | exactly when join is commutative |
| TrackedTypes.JoinAssociatesExactly | scrutils/src/common/tracked_ty.rs:50-62 | exactly when join is associative |
| Counterexamples.JoinIsNotAssociative | scrutils/src/common/tracked_ty.rs:50-62 | three tracked types on which join does not associate |
| TrackedTypes.Transpose | scrutils/src/common/tracked_ty.rs:20-26 | advancing one iterator per row gives the columns; it panics exactly when a row is shorter than the first |
| TrackedTypes.Spread | scrutils/src/common/tracked_ty.rs:87-109 | the member listed first decides the arity, a shorter one is a panic, and on members of one length the listing does not matter |
| TrackedTypes.ProductIsAllChoices | scrutils/src/collector/has_tracked_ty.rs:228-239 | the cartesian product holds exactly the choices of one type per operand |
| TrackedTypes.PackThenSpread | scrutils/src/collector/has_tracked_ty.rs:207-243 | packing operands into a tuple and spreading it restores arity and types exactly when no operand of several tracks nothing |
| Counterexamples.PackingLosesTheArity | scrutils/src/collector/has_tracked_ty.rs:228-239 | a pair of operands that is spread into one field |
| GenericExtraction.PeelInvertsSubstitution | scrutils/src/common/arg_tys.rs:62-74 | without lifetimes, exactly when that type does not occur ahead of the parameter as a type of its own |
| GenericExtraction.PeelInvertsUpToLifetimes | scrutils/src/common/arg_tys.rs:62-74 | with lifetimes in the declared type and erased ones in the argument, peeling gives back what was substituted for the first parameter exactly when nothing ahead of it becomes equal to anything else or to that type |
| GenericExtraction.RepeatedTypeIsNotExtracted | scrutils/src/common/arg_tys.rs:62-74 | a concrete type for which nothing is extracted |
| GenericExtraction.LifetimesMisalign | scrutils/src/common/arg_tys.rs:62-74 | from a pair of references the type of the second is not extracted |
| GenericExtraction.PlausibleInstancesExact | scrutils/src/collector/structs/partial_function_info.rs:141-176 | the candidates are exactly the successful resolutions of all combinations of extracted substitutions |
| GenericExtraction.PlausibleInstancesMonotone | scrutils/src/collector/structs/partial_function_info.rs:141-176 | knowing more about the arguments only adds candidates |
| GenericExtraction.ActualCalleeIsPlausible | scrutils/src/collector/structs/partial_function_info.rs:141-176 | if the arguments reveal the substitution a call runs with, its instance is a candidate |
| Mir.ProjectThrough | scrutils/src/collector/collector_domain.rs:14-57 | projecting along a path in two stages, each with the variant of its start, is projecting at once |
| FieldProjections.ProjectsExactly | scrutils/src/collector/collector_domain.rs:14-90 | a field of a variant, tuple or closure, a pointee of a reference, raw pointer or box, and an element are projected exactly to what the compiler says lies there |
| FieldProjections.AssociatedField | scrutils/src/collector/collector_domain.rs:21-29 | an associated type has the fields of the type it is associated with |
| FieldProjections.PayloadField | scrutils/src/collector/collector_domain.rs:59-72 | a field after a downcast is that of the variant cast to |
| FieldProjections.PayloadIsTracked | scrutils/src/collector/collector_domain.rs:209-277 | after an enum is assigned, the payload place of each variant tracks that variant's field; the assignment panics if there is none |
| FieldProjections.VariantFieldIsTracked | scrutils/src/collector/collector_domain.rs:209-277 | the same for the fields of a place that is a variant itself |
| FieldProjections.StructFieldIsTracked | scrutils/src/collector/collector_domain.rs:209-277 | after a struct is assigned, its fields are tracked at their places |
| FieldProjections.ElementIsTracked | scrutils/src/collector/collector_domain.rs:209-277 | whatever lies one step inside an assigned type is tracked there, and if nothing lies there the assignment panics |
| FieldProjections.PointeeIsTracked | scrutils/src/collector/collector_domain.rs:217-226 | if one of the assigned types is a reference, what all of them point to is tracked at the target |
| Domains.LeqIsFactInclusion | scrutils/src/collector/collector_domain.rs:341-361 | on one shape the order of states is inclusion of what they know |
| Domains.JoinIsLeastUpperBound | scrutils/src/collector/collector_domain.rs:341-361 | join of states of one shape is the least upper bound |
| Domains.DomainContributionsCommute | scrutils/src/collector/collector_domain.rs:341-361 | contributions to a state commute and are idempotent whatever their shapes |
| Domains.DomainJoinAssociates | scrutils/src/collector/collector_domain.rs:341-361 | join is associative on states of one shape |
| Domains.ChangesAreBounded | scrutils/src/collector/collector_domain.rs:341-361 | in any run below a ceiling at most as many joins report a change as there are facts missing |
| Domains.UpdateInflates | scrutils/src/collector/collector_domain.rs:263-277 | updates are weak: they keep shapes and everything known |
| Domains.UpdateMonotone | scrutils/src/collector/collector_domain.rs:263-277 | an update in a state that knows more gives a state that knows more and panics no less often |
| CollectorDomains.CollectorDomain.Propagate | scrutils/src/collector/collector_domain.rs:209-261 | joins the projections into all targets; a projection error leaves the places unchanged |
| CollectorDomains.CollectorDomain.UpdateWith | scrutils/src/collector/collector_domain.rs:263-277 | the place absorbs the type and all it then holds is propagated |
| CollectorDomains.CollectorDomain.AugmentWithArgs | scrutils/src/collector/collector_domain.rs:182-207 | arguments arrive in locals from 1 on, the closure itself being skipped |
| CollectorDomains.CollectorDomain.AugmentClosureWithUpvars | scrutils/src/collector/collector_domain.rs:142-180 | captured variables arrive in the closure's fields, behind a reference if it is one |
| CollectorDomains.CollectorDomain.JoinWith | scrutils/src/collector/collector_domain.rs:341-361 | the in-place join is the join of states and its flag tells exactly whether anything changed |
| ProjectionClosure.DeclaredIsClosed | scrutils/src/collector/collector.rs:299-308 | the declared types are closed under projection into interior places |
| ProjectionClosure.UpdatesKeepClosure | scrutils/src/collector/collector_domain.rs:209-277 | after any run of updates the types of a place, projected along an interior path, are tracked at its end, for all places that are not themselves the target of a reference |
| ProjectionClosure.PointeesArePropagated | scrutils/src/collector/collector_domain.rs:217-226 | what an updated place points to receives the pointees of its references |
| ProjectionClosure.UpdateKeepsClosureEverywhereExactly | scrutils/src/collector/collector_domain.rs:209-261 | exactly when an update keeps the closure at the target of a reference too |
| Counterexamples.FieldBehindReferenceLags | scrutils/src/collector/collector_domain.rs:209-261 | a body and a closed state in which an update leaves a field behind a reference without the type of its pair |
| ProjectionClosure.AugmentKeepsClosureExactly | scrutils/src/collector/collector_domain.rs:182-207 | for a place that tracks a set and a place inside it, exactly when augmenting keeps the closure between them |
| ClosedSummaries.AugmentKeepsClosure | scrutils/src/collector/collector_domain.rs:142-207 | augmenting keeps the closure of the whole state if no field of a known type hides something where a set is tracked, at all places that are not themselves the target of a reference |
| ClosedSummaries.BottomIsClosed | scrutils/src/collector/collector.rs:299-330 | the start state of a function whose inputs arrive whole is closed under projection, at all places that are not themselves the target of a reference |
| ClosedSummaries.SummariesAreClosed | scrutils/src/collector/collector.rs:113-131 | all block states and the stored summary of such a function are closed under projection, at all places that are not themselves the target of a reference |
| Counterexamples.PointerFieldDoesNotArrive | scrutils/src/collector/collector_domain.rs:182-207 | a body and a closed state in which an arriving argument leaves the pointer inside it untracked |
| Transfers.PackMonotone | scrutils/src/collector/has_tracked_ty.rs:207-243 | tuple aggregation is monotone |
| Transfers.RvalueMonotone | scrutils/src/collector/has_tracked_ty.rs:101-275 | every rvalue is tracked monotonically on states of one shape |
| Transfers.RvaluePanicsExactly | scrutils/src/collector/has_tracked_ty.rs:66-275 | an rvalue cannot be tracked exactly if it is a generator or arithmetic on operands tracked differently |
| Transfers.BlockMonotone | scrutils/src/collector/collector.rs:336-370 | with its call's effects fixed a block transforms states monotonically |
| Transfers.EffectsInflate | scrutils/src/collector/collector.rs:189-273 | call effects add exactly their calls and unhandled types and forget nothing |
| Transfers.FewerEffectsGiveLess | scrutils/src/collector/collector.rs:189-273 | fewer calls returning fewer types, on a smaller state, give a smaller state, in whatever order they are processed |
| Transfers.EffectsIgnoreOrder | scrutils/src/collector/collector.rs:189-273 | processing the callees of one call in another order, or one twice, gives the same state |
| TypeSoundness.MapAdmitsExactly | scrutils/src/common/tracked_ty.rs:64-71 | exactly when mapping a tracked type loses the actual type |
| TypeSoundness.RvalueAdmitsExactly | scrutils/src/collector/has_tracked_ty.rs:101-275 | the tracked type of an rvalue admits its actual type exactly unless it comes from a constant that hides something, is rebuilt from a known type and hides something, or is made by a conversion to a type not tracked for its operand |
| Counterexamples.ConversionIsNotTracked | scrutils/src/collector/has_tracked_ty.rs:150-166 | a number converted to another type, tracked as what it was; assigned to a place declared as what it is, it is tracked as that |
| Counterexamples.AddressIsNotTracked | scrutils/src/collector/has_tracked_ty.rs:136-148 | the address of a place of known type, of which nothing is tracked |
| TypeSoundness.UpdateAdmits | scrutils/src/collector/collector_domain.rs:263-277 | an updated place, and the set-tracking places inside it, admit the assigned actual type and its projections |
| TypeSoundness.AssignmentAdmitsExactly | scrutils/src/collector/collector.rs:336-370 | after an assignment a destination that tracks one type admits exactly that one; one that tracks a set admits the assigned actual type exactly if it did before or nothing on the way loses it |
| TypeSoundness.MergeAdmits | scrutils/src/common/arg_tys.rs:29-48 | merging inferred and provided argument types keeps the actual ones |
| TypeSoundness.ReturnAdmits | scrutils/src/collector/collector_domain.rs:279-300 | the type handed to the caller admits the actual type of the returned value |
| TypeSoundness.ClosureCallRestoresArguments | scrutils/src/common/arg_tys.rs:17-23 | a closure body sees exactly the tracked types its caller packed |
| TypeSoundness.SpreadAdmitsExactly | scrutils/src/common/tracked_ty.rs:87-109 | exactly when spreading a tuple loses the actual type of a field |
| TypeSoundness.RegularArgumentsAdmit | scrutils/src/collector/structs/partial_function_info.rs:109-139 | a regular callee is analyzed with argument types that admit the actual ones |
| TypeSoundness.ClosureArgumentsAdmit | scrutils/src/collector/structs/partial_function_info.rs:109-139 | a closure is analyzed with argument types, after itself, that admit those packed in the tuple it is called with, but for a hiding field of a tuple of known type |
| TypeSoundness.StartStateKnowsInputs | scrutils/src/collector/collector.rs:316-329 | every argument and captured type is known where it arrives when a body starts, a closure being left to its captured variables |
| PathTypes.InputsStartKnown | scrutils/src/collector/collector.rs:316-329 | a function starts in a state that admits the types of all arguments and captures that are admitted by what it is entered with |
| PathTypes.LearnedWhereNothingHides | scrutils/src/collector/collector_domain.rs:209-261 | a type that arrives at a place with a set is known everywhere inside where it hides nothing, and one step through a reference |
| PathTypes.SummaryAdmitsActualTypes | scrutils/src/collector/collector.rs:336-370 | in every execution along a path, whatever it converts, loses or skips, the summary admits the types at all places known in the end: those a type arrived at by known places without being lost, and that nothing written since could change |
| PathTypes.BehindReferenceExactly | scrutils/src/collector/collector_domain.rs:209-261 | after a reference to a place is written, a place behind its target has the type found there, and tracks it exactly if it did before |
| Counterexamples.StaleRead | scrutils/src/collector/collector_domain.rs:209-261 | two assignments after which the tracked set of a place lacks the type it has in every execution of them, of which there is one |
| Dataflow.PathSoundness | scrutils/src/collector/collector.rs:113-131 | what any path accumulates under a monotone transfer, covered by the last visit of each block and the block ends, is in the summary |
| Dataflow.PathSoundnessOfBody | scrutils/src/collector/collector.rs:113-131 | the same for the body's own transfers, with every call doing no more than it was last recorded to do |
| Dataflow.FixpointIsLeastSolution | scrutils/src/collector/collector.rs:113-131 | with call effects fixed the block states are the least family above bottom closed under transfers and edges |
| Dataflow.OrderIndependence | scrutils/src/collector/collector.rs:113-131 | any two finished runs in which the calls had the same sets of effects end in the same block states and summary |
| FunctionStorage.FindIsStable | scrutils/src/common/storage/function.rs:30-60 | a lookup that succeeds keeps its answer when the storage grows |
| FunctionStorage.FoundIsFirstAbout | scrutils/src/common/storage/function.rs:30-60 | a lookup finds the first summary about the callee, of its instance or without a body of its definition, and fails only if there is none |
| FunctionStorage.InsertedExactly | scrutils/src/common/storage/function.rs:24-28 | a summary is stored unless there is one that differs in the body at most |
| FunctionStorage.InsertKeepsOrder | scrutils/src/common/storage/function.rs:24-28 | inserting a summary whose calls can be looked up keeps the storage a topological order without duplicates |
| FunctionStorage.FunctionInfoStorage.Insert | scrutils/src/common/storage/function.rs:24-28 | appends the summary unless an equal one is stored |
| FunctionStorage.FunctionInfoStorage.GetWithBody | scrutils/src/common/storage/function.rs:30-42 | the first summary of the instance |
| FunctionStorage.FunctionInfoStorage.GetByCall | scrutils/src/common/storage/function.rs:54-60 | a recorded call is answered by the first summary about its callee, which lies below its caller, and never by nothing |
| ClosureStorage.ClosureInfoStorage.UpdateWith | scrutils/src/common/storage/closure.rs:27-56 | the entry's type is set once, its upvars absorb the contribution position by position, and the update joins the history |
| ClosureStorage.EntryHistory | scrutils/src/common/storage/closure.rs:27-56 | over any history an entry keeps its type and count, and each set slot is its value joined with all later contributions |
| ClosureStorage.EntryFromScratch | scrutils/src/common/storage/closure.rs:27-56 | from an empty storage the upvars are the first non-empty contribution joined with all later ones |
| ClosureStorage.EntryTypeIsTheFirst | scrutils/src/common/storage/closure.rs:34-54 | an entry has the closure's type with the type arguments of the function that created it first, whatever comes later |
| ClosureStorage.AccumulationIgnoresOrder | scrutils/src/common/storage/closure.rs:27-56 | permuting the contributions after the first changes nothing |
| ClosureStorage.CapturesAreKept | scrutils/src/common/storage/closure.rs:27-56 | whatever was captured at some creation of a closure is in the storage from then on |
| ClosureStorage.EntriesOnlyGrow | scrutils/src/common/storage/closure.rs:27-56 | everything an entry once held it still holds |
| Resolution.HiddenCalleeIsResolved | scrutils/src/collector/structs/partial_function_info.rs:179-254 | a call whose callee has no body of its own (on a type parameter, a trait object or a closure trait) and whose arguments reveal the substitution resolves to the function or closure really run, among others |
| Callees.ResolvedExactly | scrutils/src/collector/structs/partial_function_info.rs:109-254 | a call is resolved to exactly what its candidates are run as; it panics exactly if its body is known but no instance, or a candidate cannot be called or has an entry that does not resolve; it fails exactly if otherwise a candidate is an unknown closure |
| Callees.DirectCalleeIsRun | scrutils/src/collector/structs/partial_function_info.rs:179-202 | a call whose body is known runs the instance it resolves to, with that instance's type arguments in the caller, declared arguments that hide nothing and passed ones else; and nothing else |
| Evidence.ChainGrows | scrutils/src/collector/collector.rs:189-226 | the analysis of a callee that is not on the stack extends the chain of nested analyses |
| Evidence.OriginEntersAsDeclared | scrutils/src/collector/collector.rs:47-56 | the origin is entered with its declared argument types that hide nothing, and nothing known of the others |
| Evidence.CertificateIsStable | scrutils/src/collector/collector.rs:87-131 | the evidence for a summary stays evidence while summaries and closure updates are added |
| Summaries.InsertKeepsStorage | scrutils/src/collector/collector.rs:232-241 | storing a certified summary keeps every stored summary certified, the call graph acyclic, and every analysis on a chain either going on or stored |
| Summaries.MemoInsertIsIdentity | scrutils/src/collector/collector.rs:95-101 | storing again what a memo hit returned changes nothing |
| Summaries.StoredSummaryHasItsBody | scrutils/src/collector/collector.rs:232-241 | a stored summary carries the body that was analyzed and its position |
| Summaries.EarlySummaryIsAnInnerRuns | scrutils/src/collector/collector.rs:79-101 | a summary of the origin's instance that is stored while the origin's run goes on comes from an inner run with other tracked arguments |
| Collectors.Collector.ProcessCallee | scrutils/src/collector/collector.rs:189-274 | a callee off the stack is analyzed, stored, recorded as a call that can be looked up, and its stored or declared return type flows to the destination; if not ok it came to an operation that panics |
| Collectors.Collector.ProcessCall | scrutils/src/collector/collector.rs:153-291 | the recorded calls are exactly those to the plausible callees off the stack, or one without body if none resolves, or an unhandled type; if not ok it came to an operation that panics |
| Collectors.Collector.ApplyStatement | scrutils/src/collector/collector.rs:336-370 | the effect of an assignment on the state; the closure storage is updated by exactly the closure it creates; not ok exactly names the assignment or closure update that panics |
| Collectors.Collector.ApplyBlock | scrutils/src/collector/collector.rs:336-430 | the effect of a block: captures stored, the call site accounted for against the virtual stack and the closure storage at the call, returned types taken from stored summaries; if not ok it came to an operation that panics |
| Collectors.Collector.IterateToFixpoint | scrutils/src/collector/collector.rs:113-117 | the worklist ends, on any storage contents, in a fixpoint reached by transfers all of which are recorded as such; if not ok it came to an operation that panics |
| Collectors.Collector.JoinBlockEnds | scrutils/src/collector/collector.rs:119-130 | every block end is recomputed, recorded, and all are joined; if not ok it came to an operation that panics |
| Collectors.Collector.BottomValue | scrutils/src/collector/collector.rs:299-330 | the start state: declared types, captured variables, then arguments |
| Collectors.Collector.CollectClosures | scrutils/src/collector/collector.rs:310-314 | every closure type of the body is entered in the closure storage, which never panics |
| Collectors.Collector.Run | scrutils/src/collector/collector.rs:87-131 | a run ends and keeps the invariant; its summary is the stored one of the instance, or is certified by an analysis of the current function below exactly the functions on the stack; if not ok it came to an operation that panics |
| Collectors.Collect | scrutils/src/collector/collector.rs:47-85 | a whole collection ends, with an acyclic storage of certified summaries whose callers are stored too, unless it came to an operation that panics, which it cannot if none does in its universe; the lookup of the origin gives the outer run's summary exactly when none of an inner run was stored before, which is sure if the origin's definition has one item |
| Ceilings.CeilingsGiveUniverse | scrutils/src/collector/collector.rs:87-131 | finitely many functions, with states that absorb what their statements and calls do to them, give a finite closed universe |
| Ceilings.CeilingsNeverPanic | scrutils/src/collector/collector.rs:87-131 | where besides rvalues can be tracked, calls resolved and start states built, no operation panics: collections succeed |
| RecursivePrograms.FIsCollected | scrutils/src/collector/collector.rs:192-197 | a function that passes a trait object of a known type to itself has a finite closed universe in which nothing panics |
| RecursivePrograms.RecursionIsJudgedInside | scrutils/src/common/storage/function.rs:30-42 | if the outer run recorded a call of its own instance, the lookup gives another summary, without that call |
| RecursivePrograms.InnerRunIsJudged | scrutils/src/collector/collector.rs:79-101 | the collection of that function succeeds, and looks up the summary of the inner run, without the call the outer run recorded |
| RecursivePrograms.OtherInstanceIsNeverAnalyzed | scrutils/src/collector/structs/virtual_stack.rs:10-37 | no collection of a concrete generic function that calls itself at another type has a summary of that instance |
| RecursivePrograms.OtherInstanceIsSkipped | scrutils/src/collector/structs/virtual_stack.rs:10-37 | its collection succeeds without a summary of that instance |
| EndlessPrograms.NeverSettles | scrutils/src/collector/collector.rs:113-117 | a body with a loop no run over which reaches a fixpoint, whatever its calls do |
| EndlessPrograms.RunsOn | scrutils/src/collector/collector.rs:113-117 | there are runs over it of any length, without a panic |
| EndlessPrograms.NoUniverse | scrutils/src/collector/collector.rs:87-131 | and there is no finite closed universe for it |
| ImportantLocals.TransitionMonotone | scrutils/src/important/important.rs:59-121 | more important locals in the caller give more in the callee |
| ImportantLocals.ReceivedTaintIsImportant | scrutils/src/important/important.rs:69-121 | what depends on one tainted argument alone is important in the callee |
| ImportantLocals.TransitionExactly | scrutils/src/important/important.rs:52-121 | the important locals of a callee are the dependents of the positions to which an important local is copied or moved, or those positions if there is no body; none for a constructor; for a closure all its arguments |
| ImportantLocals.ImportantArgsExactly | scrutils/src/important/important.rs:36-48 | the origin starts with what depends on any one of its important arguments |
| ImportantLocals.ImportantExactlyByReceivedTaint | scrutils/src/important/important.rs:59-121 | if dependence distributes over arguments, a local of the callee is important exactly when it depends on one single argument that received taint |
| ImportantLocals.TransitionDistributes | scrutils/src/important/important.rs:59-121 | taints of a caller do not interact, and closures take none from their caller |
| Analyzer.AnalyzeItem | scrutils/src/analyzer/analyzer.rs:18-143 | returns the verdict; as multisets the failing list grows by exactly the visited frames that fail and the passing list by the other visited frames |
| Analyzer.AnalyzeCallees | scrutils/src/analyzer/analyzer.rs:94-118 | all callees are walked, in any order and without stopping at a failure |
| Analyzer.Run | scrutils/src/analyzer/analyzer.rs:145-195 | the status is true exactly when nothing failed, exactly when no bad frame is reached from the origin |
| Analyzer.VerdictMeansNoBadFrameReached | scrutils/src/analyzer/analyzer.rs:68-142 | a frame passes exactly when no path of expanded frames leads to one that leaks by itself |
| Analyzer.VerdictExactly | scrutils/src/analyzer/analyzer.rs:34-142 | a function passes exactly if nothing important reaches it, or it is allowlisted or trusted and no method by `&self`, or it has a body without unhandled callee, raw pointer write and mutable transmute, and the first summary about each of its callees passes |
| Analyzer.VerdictMeansAllVisitedPass | scrutils/src/analyzer/analyzer.rs:68-142 | a frame passes exactly when every visited frame does |
| Analyzer.VisitedMeansReached | scrutils/src/analyzer/analyzer.rs:94-118 | the visited frames are exactly those reached by paths of expanded frames |
| Analyzer.VerdictMonotone | scrutils/src/analyzer/analyzer.rs:34-77 | larger lists never turn a pass into a failure, more important locals never a failure into a pass |
| Analyzer.TaintedLeakIsCaught | scrutils/src/analyzer/analyzer.rs:66-142 | if taint can travel through calls to a function that leaks by itself, the verdict is negative |
| Analyzer.TaintedArgumentIsCaught | scrutils/src/important/important.rs:36-48 | the same from an important argument of the origin |
| EndToEnd.EveryCallSiteIsRecorded | scrutils/src/collector/collector.rs:153-422 | for every call and drop of a summarized body, read off the terminator, no callee is silently lost: an unresolved one is a call of the named definition, and every other a recorded call with the operands in order, or its definition was being analyzed with the same tracked arguments by a run that has stored its summary |
| EndToEnd.EveryCandidateIsRecorded | scrutils/src/collector/collector.rs:153-291 | the same with callees in the compiler's terms: every candidate of the call, as it is run in the caller |
| EndToEnd.DestructorIsRecorded | scrutils/src/collector/collector.rs:393-422 | dropping a value with a destructor records the destructor for the dropped type, called with the place by mutable reference |
| EndToEnd.SkippedCalleeHasSummary | scrutils/src/collector/structs/virtual_stack.rs:10-37 | a callee skipped by the recursion guard has a stored summary of its own instance if the guard tells instances apart |
| EndToEnd.StoredSummaryIsPathSound | scrutils/src/collector/collector.rs:113-131 | every stored summary contains what any path accumulates under any monotone transfer that the last visits and the block ends cover |
| EndToEnd.FewerEffectsAreCovered | scrutils/src/collector/collector.rs:189-273 | the body's own transfers are covered when every call does no more than it was last recorded to do |
| EndToEnd.PathTypesAreTracked | scrutils/src/collector/collector.rs:113-131 | a type such a path makes a place hold is tracked for it in the summary |
| Executions.ActualTypesAreTracked | scrutils/src/collector/collector.rs:336-370 | in every execution from known inputs, a certified summary admits the types at all places known in the end |
| Executions.KnownTypesFlowIn | scrutils/src/collector/structs/partial_function_info.rs:109-139 | what is known of the operands of a call is known of the arguments where the callee starts, be it a regular function or a closure with its arguments packed in a tuple, and so are captures recorded by then |
| Executions.TypesFlowDownTheStack | scrutils/src/collector/collector.rs:189-226 | for a stack of calls of any depth, nothing but declared types being known at its bottom, the summary of the function on top admits the types at all places known when it ends |
| Executions.ReturnFlowsOut | scrutils/src/collector/collector_domain.rs:279-300 | what a call brings back from a summary admits the type really returned, if that is known where the callee ends |
| Executions.TypesFlowThroughCall | scrutils/src/collector/collector.rs:189-273 | a known returned type is known where the caller puts it |
| ExecutedPrograms.FIsExecuted | scrutils/src/collector/has_tracked_ty.rs:150-166 | an execution that converts a number, skips or makes a call, and coerces a reference, is one of every analysis of the function |
| ExecutedPrograms.FRunsInItself | scrutils/src/collector/collector.rs:192-197 | the collection of that function succeeds, and the execution of its outer analysis calls that of its inner one; the stored summary admits the type made after the skipped call |
| EndToEnd.CapturesSurvive | scrutils/src/collector/has_tracked_ty.rs:248-263 | what a summarized body captures when it creates a closure is in the closure storage at the end |
| UntouchedPlaces.SummaryLeaves | scrutils/src/collector/collector.rs:336-370 | what a summary tracks for a place no statement or call of the body touches is what was tracked there at the start |
| UntouchedPlaces.CaptureIsSeenExactly | scrutils/src/collector/collector.rs:95-101 | a captured type is in the closure storage for good, and is admitted by a stored summary of the closure exactly if it was tracked when that analysis started |
| EndToEnd.SnapshotsOnlyGrow | scrutils/src/common/storage/closure.rs:27-56 | the closure storage an analysis resolved its calls with holds no more than the final one |
| EndToEnd.PositiveVerdictCoversEveryCallSite | scrutils/src/analyzer/analyzer.rs:79-118 | if the origin passes, no function looked into writes through a raw pointer or transmutes, and each of its calls and drops is handled: callees without body are passed unseen under their own definition, and every other callee passes or was being analyzed by a run that has stored its summary |
| EndToEnd.AnalyzeInstance | scrutils/src/analyzer/analyzer.rs:145-195 | collection followed by the walk: the status is true exactly when no bad frame is reached; not ok means a panic or a broken calling convention; what is judged is the outer run if the origin's definition has one item |
| SpanCodec.SpanEncoder.EncodeSpan | scrutils/src/body_cache/encoder.rs:270-295 | writes a full span relative to its file, or a partial tag |
| SpanCodec.SpanDecoder.FindFile | scrutils/src/body_cache/encoder.rs:332-356 | the matching file if there is exactly one; without any the file of that path on disk, which is loaded |
| SpanCodec.SpanDecoder.DecodeSpan | scrutils/src/body_cache/encoder.rs:321-371 | reads one span and nothing more, with both containment checks, loading its file if need be |
| SpanCodec.WrittenExactly | scrutils/src/body_cache/encoder.rs:270-295 | a span is written in full exactly if it is real and ends in the file it starts in, with that file's crate and name and its range relative to it |
| SpanCodec.FoundExactly | scrutils/src/body_cache/encoder.rs:332-356 | the file is the only loaded one of that crate with that name or a path that ends with it in whole components, or if there is none, the local file on disk; else the source panics |
| SpanCodec.OwnNameIsMeant | scrutils/src/body_cache/encoder.rs:286-290 | the name written for a file means that file, and has no local path if it is remapped |
| SpanCodec.SpanRoundTrip | scrutils/src/body_cache/encoder.rs:270-371 | a full span is read back with the same range relative to its file exactly when the file found is long enough |
| SpanCodec.SpanLoadsItsFile | scrutils/src/body_cache/encoder.rs:332-371 | a span of a local file that is not loaded is read from the file on disk exactly when that is long enough |
| SpanCodec.OtherSpansBecomeDummy | scrutils/src/body_cache/encoder.rs:270-281 | every other span is read back as the dummy span |
| SpanCodec.StreamRoundTrip | scrutils/src/body_cache/encoder.rs:270-371 | a stream of spans is read back span by span, each moved with its file, leaving the rest untouched |
| TypeShorthands.WrittenIsUnique | scrutils/src/body_cache/encoder.rs:174-188 | the type written at a position does not depend on how far shorthands are followed |
| TypeShorthands.TypeDecoder.CachedTyForShorthand | scrutils/src/body_cache/encoder.rs:174-188 | a remembered type is the one written at its position, and looking it up leaves the cursor alone |
| TypeShorthands.TypeDecoder.WithPosition | scrutils/src/body_cache/encoder.rs:194-203 | reads at another position and restores the cursor |
| TypeShorthands.TypeDecoder.ReadTy | scrutils/src/body_cache/encoder.rs:165-203 | decoding with remembered shorthands gives the same type, and ends at the same position, as decoding without |
| TypeShorthands.TypeEncoder.EncodeTy | scrutils/src/body_cache/encoder.rs:105-117 | a type is written so that reading it gives it back, whether in full or by reference to where it was written |
| TypeShorthands.WriteAndRead | scrutils/src/body_cache/encoder.rs:72-82 | types written one after the other, with whatever shorthands, are read back |

## Left out

- rustc internals (trait selection, MIR construction, region erasure, place normalization): parameters of the model, with places taken as normalized.
- Constants as nodes of a type walk: they are part of a type's constructor.
- The information flow analysis itself: an abstract function, assumed monotone and extensive where a theorem says so.
- The dataflow engine's reverse-postorder queue: a set of scheduled blocks of which any is picked.
- Duplicate candidates: a callee suggested twice by a candidate list is processed once; the second processing would find the stored summary and add nothing.
- SpreadTuple: when tuples of different lengths meet in one set, what the source does depends on hash order (`TrackedTypes.Spread` says how); as a function of the set the model panics.
- SummaryAdmitsActualTypes: an execution is the sequence of the types at its places. Memory is not modelled; which places a write or a callee can change follows from whose address is taken and which types may point elsewhere (`MayChange`, `TerminatorMayChange`).
- RvalueAdmitsExactly: what a cast does to a value is not the analysis' business, so the model has a kind for coercions, which keep the type underneath, and one for conversions, which do not; the source treats both alike.
- ResolvedExactly: takes it that the compiler gives closures a closure type and every other candidate a function type.
- TypesFlowThroughCall: the summary has to be that of the callee as this call resolved it. One that is reused for other arguments of the same instance need not admit what they bring.
- CaptureIsSeenExactly: says nothing of closure bodies that assign to their captured variables.
- AugmentKeepsClosure: leaves out places that are the target of a reference, where closure can fail (`FieldBehindReferenceLags`; `UpdateKeepsClosureEverywhereExactly` says exactly when it holds after an update).
- BottomIsClosed: leaves out the same places.
- SummariesAreClosed: leaves out the same places.
- Resolve: if one candidate panics during assembly the model panics, and reports a failure otherwise if any candidate fails; the source stops at whichever comes first in hash order.
- AnalyzeInstance: stops before the walk if any recorded closure call breaks the calling convention, where the source panics only when the walk reaches that call.
- The crates an analyzed function depends on (`deps`), JSON output, MIR dumps, the command line and the configuration files.
- The `shallow` mode, selectors and the precheck: early returns that add only easy members.
- The raw pointer and transmute heuristics: one boolean each per body.
- Body cache files, LEB128 bytes and crate number remapping: the codecs work on tokens.
- ReadTy: how the compiler lays out the nodes of a type is not part of this model; a token names a constructor and its number of arguments, and malformed data (where the source panics or does not end) is excluded.
- EncodeTy: which types are worth a shorthand is for the compiler's encoder to say, and a parameter.
- WrittenIsUnique: is about that layout of tokens.
- Machine integers in positions: positions are unbounded, source maps keep them below 2^32.
