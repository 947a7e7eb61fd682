# django-connectors, verified

The repository lands records from a provider through dlt into landing tables, projects the landed rows into a
host's own records, and heals whatever is dropped on the way. This project models that pipeline in Dafny and
proves what it promises: over every run, every interleaving and every crash the model allows, not over examples.

`dafny verify dfyconfig.toml` checks everything. dlt, Django, the database, the providers and the clock are small
explicit environments: a load is a delete-insert by key that restamps the load id, one SQL statement is one atomic
step, a provider answers with whatever its documented contract lets it answer, and a clock only moves as stated.

| file | models |
|---|---|
| `Compiler.dfy`, `CompilerRoundTrip.dfy`, `Grammar.dfy`, `Mapping.dfy` | the mapping language: its grammar, JSON to syntax tree to values, filters, `apply` |
| `Evaluation.dfy`, `ProjectedRows.dfy` | what each form of expression and filter means, and what a row is projected to |
| `Validator.dfy`, `Checklist.dfy` | validating a projection, and what a tombstone still reaches |
| `ProjectionRunner.dfy` | one projection run: project, batch, collapse, write |
| `Convergence.dfy`, `ProjectionService.dfy` | loads, projection runs, retries and sweeps together |
| `Sweeper.dfy` | which run holds which load, over histories of dispatches, sweeps, reaps and retries |
| `MappingChange.dfy` | the same while the mapping is edited and replayed |
| `Reshape.dfy`, `Landing.dfy` | unpivot, merge identity, delete-insert loads |
| `LandingRunner.dfy`, `LandingVerdicts.dfy` | one Binding's pipeline under failures, which Run a load is credited to, and how each Run ends |
| `Locks.dfy` | leases, statement by statement, with the reaper of stale Runs |
| `Delivery.dfy` | from a webhook delivery to the Run that answers it |
| `Drive.dfy`, `DriveMirror.dfy` | the Drive change-feed tracker, and what it tracks against what is in Drive |
| `Gmail.dfy` | the Gmail backfill and history replay |
| `Uuid7.dfy`, `Excel.dfy`, `Headers.dfy` | ids under a misbehaving clock, sheet trimming, column naming |
| `SheetRecords.dfy` | ranges and trimmed sheets into landing records |
| `Values.dfy`, `Sequences.dfy` | the values rows hold, and lists |

Code that changes state in place is a class or a method with loops here too, proved against a function of the old
state; the theorems over whole histories are lemmas about those functions.

## What the proofs turned up

Each of these is a lemma: a concrete input on which the property fails, or the exact condition under which the code
meets it.

- `validate_unpivot` accepts a `name_to` or `value_to` that is a key column when `keep` is unset, and then the key
  is overwritten (`Reshape.KeySurvivesIff`).
- A case sent twice in one load package breaks "the landing table is the unpivoted wide table" exactly when the
  later row brings a stage the earlier ones lacked (`Landing.LoadSquare`).
- An identity that reads the `_connector_deleted` marker passes validation. Its tombstone then finds the record exactly
  when every identity field comes out alike with the marker false and true (`Validator.TombstoneMatchesIff`). A bare
  reference to the marker does not, in some environment and for some row (`Validator.BareMappingIff`); a marker that is
  only the fallback of a coalesce does whenever the row has an id (`Validator.IdOrMarkerMatches`). A filter on a column
  outside the key drops tombstones unless it asks for NULL, and one on the marker drops them unless it accepts the
  marker set (`Validator.TombstonePassesIff`): a filter for live rows only, `is_null` or `eq` false on the marker, keeps
  every deletion from the host (`Validator.LiveRowsOnlyKeepsTheRecord`).
- A sweep between a Run's success and its inline dispatch queues the Run's loads twice: while no run has ended, exactly
  when that sweep's horizon included the Run (`Sweeper.DispatchAfterSweepIff`, with a history in
  `Sweeper.SweptThenDispatched`). A retry, or the late success of a reaped run, doubles them, while every other run is
  active, exactly when the loads were taken over since (`Sweeper.RevivalAfterTakeoverIff`, with histories in
  `Sweeper.TakenOverThenRevived`); in general, exactly when some run that shares them has not ended
  (`Sweeper.StepKeepsDisjointIff`).
- The sweeper reads its queued runs together with their Projections once and then executes them one after another. If
  the mapping is edited and replayed meanwhile, a later execution works from the outdated copy, passes the version
  check and reverts rows the replay had corrected, for every two versions (`MappingChange.OutdatedCopyReverts`). Over all
  mappings only the present version's copy is safe (`MappingChange.OnlyTheUpToDateCopyIsSafe`); for given ones an
  outdated copy is harmless exactly when what it writes leaves what the present mapping would write
  (`MappingChange.ExecutionKeepsReflectedIff`).
- `run_due_bindings` says a Binding held back by `min_run_interval` is not reconsidered every tick. A dirty one is:
  the query that selects due Bindings takes `dirty` whatever `next_run_at` says, so every sweep selects it until it is
  rescheduled (`Delivery.HeldBackIsDueIff`).
- Two schedulers can both win one claim, when the first writes back the very `next_run_at` the second selected
  (`Delivery.SecondClaimWinsIff`, with a history in `Delivery.BothSchedulersClaim`).
- A Run skipped because the lease was held forgets the delivery it was for
  (`Delivery.SkippedRunSwallowsItsDelivery`), and a crash between claim and enqueue forgets deliveries nothing else
  remembers; nothing else ever does (`Delivery.NothingIsForgottenIff`).
- A Drive file without a parent, tracked under a name glob alone, leaves without a tombstone: the tracked value is
  None and `files.pop(...) is not None` reads that as "never tracked" (`Drive.ChangeKeepsTrackingIff`, with a history in
  `Drive.ParentlessFileIsLostSilently`).
- A Gmail source whose history became too old starts over with a full sync, and a message deleted in the gap stays
  live (`Gmail.StartingOverKeepsIff`, with a history in `Gmail.GapLeavesAGhost`).
- The documented grammar gives a constant no cast; the code checks one written beside it and then ignores it
  (`Grammar.CompilesIff`).
- Two events break the Drive tracker, and no other event that leaves the Binding's folder in place does
  (`DriveMirror.ChangeMirrorsIff`): a folder moved in with something already in it, which is never tracked
  (`DriveMirror.FilledFolderMovesIn`), and a folder in scope reported with no parent, whose files stay tracked
  (`DriveMirror.FolderLosesItsParent`). If the Binding's folder itself is trashed, nothing is ever tracked again, not even
  once it is restored (`DriveMirror.TrashedRootTracksNothing`). A feed that names a new file before the new folder it is
  in loses the file (`DriveMirror.FileBeforeItsFolderIsMissed`).

## Model

| member | source | states |
|---|---|---|
| Compiler.WalkJson | django_connectors/projections/compiler.py:435-454 | the path loop returns what a recursive reading of the dotted path finds, None at the first part that leads nowhere |
| Compiler.EvaluationDependsOnSourceColumns | django_connectors/projections/compiler.py:71-170 | rows that agree on a node's `source_columns` evaluate alike, errors included |
| Compiler.CompiledNodesAreWellFormed | django_connectors/projections/compiler.py:272-337 | every accepted JSON value, its objects holding each key once, yields a well-formed tree nesting at most 32 levels; compilation terminates on every JSON value |
| Compiler.NoMissingColumn | django_connectors/projections/compiler.py:90-170 | with every source column in the row, evaluation never blames the mapping |
| CompilerRoundTrip.CompileUnparse | django_connectors/projections/compiler.py:272-337 | writing any well-formed tree out as JSON and compiling it gives the tree back |
| CompilerRoundTrip.UnparseKeysOnce | django_connectors/projections/compiler.py:272-337 | what a well-formed tree is written out as holds each key once, at every depth |
| CompilerRoundTrip.CompilerImage | django_connectors/projections/compiler.py:272-337 | a tree is what some JSON, its objects holding each key once, compiles to if and only if it is well-formed, object keys distinct, and fits in 32 levels |
| CompilerRoundTrip.LiteralIff | django_connectors/projections/compiler.py:406-432 | a literal is accepted exactly when it is plain JSON that nests at most 32 levels |
| CompilerRoundTrip.CastIff | django_connectors/projections/compiler.py:345-365 | a node has no cast exactly when it names none and carries no cast option, and a cast exactly when it names one that takes its options, all of them literals |
| Grammar.CompilesIff | django_connectors/projections/compiler.py:272-365 | compilation accepts exactly the expressions with one form, a cast that fits, a column, path and default that fit, an object or a known function over expressions, at most 32 levels down; a cast beside a constant is checked and has no effect, other keys are ignored |
| Evaluation.ConcatOfOne | django_connectors/projections/compiler.py:157-161 | concat of one argument is its `str`, or the empty text for None |
| Evaluation.ConcatSplits | django_connectors/projections/compiler.py:157-161 | the text over a + b is the text over a followed by the text over b; a failure is the left side's, else the right side's |
| Evaluation.ConcatFails | django_connectors/projections/compiler.py:157-161 | concat fails exactly when an argument does, with the failure of the first that does |
| Evaluation.CoalesceIsTheFirst | django_connectors/projections/compiler.py:151-156 | the first argument that is not None answers, even by failing, whatever the later ones do; None when all are |
| Evaluation.Coalesce | django_connectors/projections/compiler.py:151-156 | the loop that stops there computes what the recursive meaning says |
| Evaluation.CaseOf | django_connectors/projections/compiler.py:162-164 | lower and upper are each its own case change of `str` of the argument, and None of None |
| Evaluation.CastComesLast | django_connectors/projections/compiler.py:168-170 | a cast applies to every answer of a call but None and failures; what it refuses is one row's data |
| Evaluation.SourceAnswers | django_connectors/projections/compiler.py:101-117 | the default answers exactly when the column is missing or leads to None; otherwise the value, cast if there is a cast; a missing column without a default blames the mapping |
| Evaluation.PathSteps | django_connectors/projections/compiler.py:435-454 | one more part of a path reads one level deeper into what the shorter path leads to |
| Evaluation.ObjectAnswers | django_connectors/projections/compiler.py:132-133 | an object answers with every member's answer under its own key, in order, or with the first failure |
| Evaluation.FiltersAreThreeValued | django_connectors/projections/compiler.py:179-197 | None matches nothing but a null check; `eq` and `ne`, `in` and `not_in` part the values that are there; `in` over one value is `eq`, and lists split |
| Evaluation.EveryFilterCounts | django_connectors/projections/compiler.py:234-235 | a row is selected exactly when every filter lets it through |
| Mapping.Apply | django_connectors/projections/compiler.py:237-247 | the field loop computes the recursive meaning, stopping at the first failing field; what each expression means is pinned by the `Evaluation` rows |
| Mapping.AppliedKeys | django_connectors/projections/compiler.py:237-247 | every asked field, and no other, has a value |
| Mapping.AppliedFieldByField | django_connectors/projections/compiler.py:237-247 | the value is what that field's own expression evaluates to |
| Mapping.AppliedIff | django_connectors/projections/compiler.py:237-247 | nothing comes out exactly when an asked field fails |
| Mapping.AppliedFailsFirst | django_connectors/projections/compiler.py:237-247 | the failure reported is that of the first asked field that fails |
| Mapping.ApplyOnlyIsAPart | django_connectors/projections/compiler.py:237-247 | `apply(only=S)` is exactly the S-part of any full `apply` that succeeds |
| Mapping.ApplyOnlyDependsOnItsColumns | django_connectors/projections/compiler.py:237-247 | fields outside `only` cannot influence the result, not even by failing |
| Mapping.AppliedMappingIsNotBlamed | django_connectors/projections/compiler.py:218-247 | when every referenced column has landed, an `apply` failure is one row's data, never a missing column |
| Validator.CheckTargetFields | django_connectors/projections/validator.py:102-123 | adds an error exactly when fields are unknown, or required or identity fields are missing, each naming exactly those fields |
| Validator.CheckIdentityIsScalar | django_connectors/projections/validator.py:177-195 | adds an error for exactly the identity fields that are an object or cast to JSON |
| Validator.CheckIdentityIsObtainable | django_connectors/projections/validator.py:198-250 | for a tombstone source with a merge key, adds an error for exactly the identity fields that read outside it, naming what they read there; for a tombstone source, a warning exactly when there is no merge key or the identity does not cover it |
| Validator.CheckSourceColumns | django_connectors/projections/validator.py:126-147 | adds an error exactly when referenced columns have not landed, naming them, and a warning for exactly those that have variants |
| Validator.CheckTypes | django_connectors/projections/validator.py:150-174 | adds an error for exactly the declared fields' columns whose type has no target representation, and a warning for exactly those the field must coerce |
| Checklist.ReferencedIff | django_connectors/projections/compiler.py:225-232 | a column is referenced exactly when some field's expression reads it or some filter is on it |
| Checklist.VariantsIff | django_connectors/projections/validator.py:136-147 | a column has variants exactly when a landed column's name goes on from its own with `__v_` |
| Checklist.TypesIff | django_connectors/projections/validator.py:150-174 | a declared field's column of a known type is an error exactly when no target takes the type, a warning exactly when one does but the field lists others |
| Checklist.ScalarIff | django_connectors/projections/validator.py:177-195 | an identity field is refused exactly when its expression builds an object or casts to JSON |
| Checklist.ObtainableIff | django_connectors/projections/validator.py:218-238 | an identity field is obtainable exactly when all it reads is in the merge key, the Binding id or the marker |
| Checklist.BusinessKeyIff | django_connectors/projections/validator.py:218-250 | the identity must cover exactly the merge-key columns that are neither the library's nor dlt's |
| Validator.Validate | django_connectors/projections/validator.py:51-99 | an unknown target or a mapping that does not compile is the one error; otherwise no error is reported exactly when every check passes, before the first Run only the field check, and no warning exactly when there is a schema and nothing to warn of |
| Validator.ValidatedStatus | django_connectors/projections/validator.py:253-259 | active exactly when there is a schema, every check passes and nothing is warned of; invalid exactly when some check fails |
| Validator.TombstoneKeepsIdentity | django_connectors/projections/validator.py:198-238 | once validation passes, a tombstone projects to a delete with exactly the identity its live row was upserted under, whatever other fields would do |
| Validator.TombstoneMatchesIff | django_connectors/projections/validator.py:198-238 | once validation passes, a tombstone deletes its live row's record if and only if each identity field evaluates and coerces alike with the marker false and true |
| Validator.BareIdentityIff | django_connectors/projections/validator.py:218-238 | identities made of bare source references: every tombstone matches, in every environment, if and only if no identity field reads the marker |
| Validator.BareMappingIff | django_connectors/projections/validator.py:218-238 | the same for every mapping of bare references that passes validation, nothing else asked |
| Validator.IdOrMarkerMatches | django_connectors/projections/compiler.py:150-158 | an identity that coalesces the id with the marker reads the marker and still matches the tombstone of every row with an id |
| Validator.KeyFiltersPassTombstones | django_connectors/projections/compiler.py:173-215 | filters on key columns treat a tombstone as they treat its live row |
| Validator.TombstonePassesIff | django_connectors/projections/runner.py:153-156 | the tombstone of a row the filters select is selected too if and only if each filter reads a key column, or reads the marker and accepts it set, or asks for NULL of another column |
| Validator.LiveRowsOnlyKeepsTheRecord | django_connectors/projections/compiler.py:173-215 | with a filter for live rows only among any others, a replay over the live row and a later one over its tombstone leave the host's record standing |
| ProjectedRows.DeletesExactly | django_connectors/projections/runner.py:200-228 | a row projects to the delete of an identity exactly when it is marked deleted and its identity fields, evaluated and coerced, are that identity without a None, whatever its other fields do |
| ProjectedRows.UpsertsExactly | django_connectors/projections/runner.py:200-238 | any other row projects to an upsert exactly of the values all its fields give, the required ones not None, under the identity among them |
| ProjectedRows.StopsIff | django_connectors/projections/runner.py:153-168 | a selected row that gives no record stops the run exactly when bad rows may not be skipped, or when the first field that fails reads a column that is not there; otherwise it is skipped |
| ProjectionRunner.Collapse | django_connectors/projections/runner.py:292-312 | one record per identity, deletes last; an identity deleted now or earlier in the run yields no upsert; otherwise the last upsert wins |
| ProjectionRunner.Run | django_connectors/projections/runner.py:134-190 | a run that ends well leaves the host exactly as the whole stream means, at any batch size; one cut short leaves only effects of that stream; it stops exactly for a row that is fatal |
| ProjectionRunner.BatchExtendsReplay | django_connectors/projections/runner.py:241-312 | applying one collapsed batch extends "the host is the replay of what was read" by that batch |
| ProjectionRunner.BatchBoundariesDoNotShow | django_connectors/projections/runner.py:143-190 | any two ways of cutting the same stream into batches end in the same host table |
| ProjectionRunner.ReplayIsDetermined | django_connectors/projections/runner.py:143-190 | what a stream means for a host table is one table |
| ProjectionRunner.RetryAfterCrash | django_connectors/services/projections.py:299-318 | re-running the whole scope over whatever a crash left gives what one clean run gives |
| ProjectionRunner.CrashAfterCrash | django_connectors/services/projections.py:299-318 | crashes add up: two cut-short runs leave no more than one could |
| Convergence.ExecutionReflects | django_connectors/projections/runner.py:193-228 | a completed execution makes the host reflect every row it read and keeps every row it already reflected |
| Convergence.StepKeepsInv | django_connectors/services/projections.py:206-318 | every load, completed, cut-short, failed, superseded or queued run keeps covered rows reflected |
| Convergence.ReachesKeepsInv | django_connectors/services/projections.py:206-318 | whatever any sequence of steps reaches, and so every dispatch, reap, sweep and retry, keeps covered rows reflected |
| Convergence.Convergence | django_connectors/projections/runner.py:134-197 | over every interleaving, once each landed load id was covered by some completed run, a full replay changes nothing |
| Convergence.SweepConserves | django_connectors/projections/runner.py:355-404 | a sweep keeps load sets disjoint, leaves every load of the horizon held by an active run, holds nothing else, and makes a second sweep idle |
| Convergence.QuietSweeperHasConverged | django_connectors/services/projections.py:279-296 | when nothing is outstanding, queued or running within the horizon, the host has converged |
| Sweeper.ActiveLoadsStayDisjoint | django_connectors/services/projections.py:206-318 | over every history of records, dispatches, sweeps, claims, finishes, reaps and retries, no sweep between record and dispatch, no retry after a take-over and no late completion, active load sets stay pairwise disjoint |
| Sweeper.LoadsAreConserved | django_connectors/projections/runner.py:355-404 | over the same histories each recorded load of the horizon is held by exactly one active run, or else is outstanding |
| Sweeper.StepKeepsDisjointIff | django_connectors/projections/runner.py:355-404 | while those conditions have held, the next event keeps load sets disjoint if and only if it meets them too or whatever took its loads over has ended |
| Sweeper.DispatchAfterSweepIff | django_connectors/services/projections.py:206-233 | while no run has ended, a dispatch queues its loads a second time if and only if a sweep since the Run was recorded had it within its horizon |
| Sweeper.RevivalAfterTakeoverIff | django_connectors/services/projections.py:299-318 | while every other run is active, a retry, or a late success of a reaped run, holds a load twice if and only if the run was retried since or a sweep since included one of its loads |
| Sweeper.SweptThenDispatched | django_connectors/services/projections.py:206-233 | for every Run with loads and every horizon before it, the history record, sweep, dispatch ends with a load held twice |
| Sweeper.TakenOverThenRevived | django_connectors/services/projections.py:279-318 | for every Run with loads, a history in which its run fails or is reaped, a sweep takes its loads over, and a retry or the late success then holds a load twice |
| MappingChange.ExecutionKeepsReflectedIff | django_connectors/projections/runner.py:67-131 | an execution from any copy that passes the version check keeps covered rows reflected, in all its outcomes, if and only if what that copy's mapping writes at their identities leaves what the present mapping would write, or no outcome completes because a row in scope is fatal |
| MappingChange.StepKeepsReflected | django_connectors/services/projections.py:84-123 | every load, edit, completed, cut-short or superseded run, from an up-to-date copy or a harmless one, keeps rows covered since the last edit reflected under the present mapping |
| MappingChange.ConvergenceUnderEdits | django_connectors/services/projections.py:84-203 | over every history with edits, identity edits included, once each landed load is covered since the last one, a full replay under the present mapping changes nothing |
| MappingChange.ReplayAfterAnEditSticks | django_connectors/projections/runner.py:71-81 | after a replay that follows an edit, no queued, retried or swept run from before it changes a row the replay read |
| MappingChange.OutdatedCopyReverts | django_connectors/services/projections.py:249-260 | for every two versions, a history from the start: load, queue, edits, replay; the older run then executes from its own version's copy, passes the version check and reverts the corrected row |
| MappingChange.OnlyTheUpToDateCopyIsSafe | django_connectors/services/projections.py:249-260 | completing a run from a copy of a given version is safe over all mappings and histories if and only if that is the present version |
| ProjectionService.Service.Execute | django_connectors/projections/runner.py:67-131 | supersedes, refuses what is not queued, or replays the scope; when the writer does not raise it ends well exactly if no row in scope stops it; each call is one step of the whole system, and a claim and a finish of the run table |
| ProjectionService.Service.DispatchPending | django_connectors/projections/runner.py:355-404 | the loops over recorded Runs and projection runs compute exactly the swept run table, the sweep event of the histories |
| ProjectionService.LandedSince | django_connectors/projections/runner.py:366-380 | the load ids recorded since the horizon, oldest first |
| ProjectionService.ProjectedBy | django_connectors/projections/runner.py:381-396 | exactly the loads held by succeeded, queued and running runs |
| ProjectionService.Service.ReapStale | django_connectors/services/projections.py:236-276 | a run is executed exactly when the queue dropped it and failed exactly when it was abandoned; every other run stays as it is; the system only takes steps of `Convergence.Next` |
| ProjectionService.Service.Sweep | django_connectors/services/projections.py:279-296 | reaps so, queues one run over exactly what is outstanding and executes it; loads stay disjoint, every load of the horizon is held by an active run or by the run this sweep queued and saw fail, and the system only takes steps of `Convergence.Next` |
| ProjectionService.Service.DispatchAfterRun | django_connectors/services/projections.py:206-233 | an active Projection gets one new run over exactly the Run's loads, left queued, or executed here and succeeded exactly when no row stops it and the writer does not raise; the dispatch event of the histories, and steps of `Convergence.Next` |
| ProjectionService.Service.RetryProjectionRun | django_connectors/services/projections.py:299-318 | only a failed run is retried, as a new row over the same scope at the present version, and executed; the failure stays: the retry event of the histories, and steps of `Convergence.Next` |
| ProjectionService.BodyEnteredAtMostOnce | django_connectors/projections/runner.py:83-94 | under every interleaving of claims and unconditional writes each run's body is entered at most once |
| Reshape.Unpivot | django_connectors/sources/reshape.py:134-178 | a row with a stage column always emits at least one record; one without any is refused |
| Reshape.ValidateUnpivot | django_connectors/sources/reshape.py:52-121 | the checks pass exactly the accepted specs; the key columns reported lost are exactly those listed, matched, or not kept |
| Reshape.UnpivotRows | django_connectors/sources/reshape.py:143-178 | a row is refused exactly when it carries no stage column; otherwise one row for each listed stage that lands, in the listing's order, each with exactly the kept columns, the stage's name and its value or null |
| Reshape.WhatLands | django_connectors/sources/reshape.py:148-176 | a row for a stage lands if and only if the row carries it, it is listed, or, with none listed, matches the glob, and it has a value, or empty ones are kept, or the whole case is cleared |
| Reshape.KeySurvives | django_connectors/sources/reshape.py:103-121 | an accepted spec whose new columns are not key columns keeps the case key on every emitted row |
| Reshape.KeySurvivesIff | django_connectors/sources/reshape.py:96-110 | an accepted spec keeps the key of every row if and only if its new columns are not key columns |
| Landing.NormalizeWriteDisposition | django_connectors/landing/instrument.py:222-259 | merge needs a key, append refuses one; the two refusals are exactly those |
| Landing.InjectStamps | django_connectors/landing/instrument.py:87-114 | every landed row has this Binding's id, this Run's id and the marker as it set it, else false; nothing else changes |
| Landing.MergeIdentity | django_connectors/landing/instrument.py:161-176 | two rows are one landed row exactly when they share Binding, key and, under a reshape, stage; a load replaces exactly the rows of the cases it sends for its Binding |
| Landing.LoadsKeepPrimaryKeysUnique | django_connectors/landing/instrument.py:161-176 | any load leaves one row per primary key |
| Landing.LoadSquare | django_connectors/landing/instrument.py:161-190 | loading the unpivoted package is unpivoting the merged wide table, if and only if no repeated case in the package brings a new stage |
| Landing.UnpivotCommutesWithMerge | django_connectors/landing/instrument.py:161-190 | over whole load histories, no package repeating a case with a new stage, the landing table is the unpivot of the wide table, row for row |
| Landing.LandedLinesAreUnique | django_connectors/landing/instrument.py:166-176 | over every load history (binding, case, stage) stays unique |
| Landing.SentCaseIsReplaced | django_connectors/sources/reshape.py:168-176 | a case a load carries once is afterwards exactly its own lines, at least one: cleared stages are gone, a cleared case still replaces |
| Landing.SentCaseHasItsStages | django_connectors/sources/reshape.py:148-178 | end to end: a case a load carries once has afterwards a line for each stage that lands and no other, each with exactly the columns of its unpivoted row, this Run's stamps and this load |
| Landing.OtherCasesUntouched | django_connectors/landing/instrument.py:166-176 | a load leaves other cases, and other Bindings, as they were |
| Locks.Leases.Acquire | django_connectors/locks.py:23-48 | a lease is taken exactly when no unexpired one stands; a refusal changes nothing |
| Locks.Leases.Release | django_connectors/locks.py:51-58 | removes the row exactly when it carries this token, and no other row |
| Locks.Leases.Renew | django_connectors/locks.py:61-70 | extends the row exactly when it carries this token |
| Locks.Leases.IsLocked | django_connectors/locks.py:73-76 | locked exactly when no acquirer could take the lease |
| Locks.Leases.ReapExpired | django_connectors/locks.py:79-86 | removes exactly the rows an acquirer could have taken over, so it frees nothing new |
| Locks.RunTable.ReapStaleRuns | django_connectors/services/runs.py:310-329 | an undisturbed pass fails exactly the running Runs no unexpired lease protects, and counts them |
| Locks.StepKeepsInv | django_connectors/locks.py:23-86 | every UPDATE, INSERT and DELETE, of any worker or reaper, keeps a live lease's row its owner's |
| Locks.AcquireIsItsStatements | django_connectors/locks.py:23-48 | one call of acquire is its statements run back to back: same table, and the worker holds the lease if and only if the row could be taken |
| Locks.AcquirerIsLiveIff | django_connectors/locks.py:23-48 | an acquire makes its worker a live holder exactly when the row could be taken and the duration is positive |
| Locks.HoldersRun | django_connectors/services/runs.py:66-98 | a worker that holds the lease may start a Run and finish it |
| Locks.HolderCallsAreStatements | django_connectors/locks.py:51-70 | one call of release or renew is its statements, on the same table |
| Locks.ReapIsItsStatements | django_connectors/locks.py:78-86 | and so is one call of the lease reaper |
| Locks.AtMostOneLiveHolder | django_connectors/locks.py:23-48 | at every instant of every interleaving at most one worker holds an unexpired, unreleased lease on a Binding |
| Locks.OthersCannotEndALease | django_connectors/locks.py:51-86 | no statement of another process ends or changes a live lease |
| Locks.StaleTokenIsPowerless | django_connectors/locks.py:51-70 | once the table no longer carries a worker's token, its releases and renewals change nothing, ever again |
| Locks.ReaperSparesLiveRuns | django_connectors/services/runs.py:310-329 | the reaper never fails a Run whose worker's lease is still live, although it selects and saves in separate statements |
| LandingRunner.BindingLanding.Verify | django_connectors/landing/runner.py:91-150 | a reply is refused exactly for failed jobs, or for a load that is on another Run's record; otherwise it counts with exactly its loads |
| LandingRunner.BindingLanding.DrainPending | django_connectors/landing/runner.py:176-214 | normalizes, then loads, and returns normally only when nothing is left waiting |
| LandingRunner.BindingLanding.Execute | django_connectors/landing/runner.py:47-88 | refuses while packages wait, else runs the pipeline and judges its report |
| LandingRunner.BindingLanding.RunBinding | django_connectors/services/runs.py:59-164 | one whole call, refused lease and recovery Run included, under every way dlt and the worker can fail; how its Runs end is `LandingVerdicts.CallEnds` |
| LandingRunner.PipelineRunIsHonest | django_connectors/landing/runner.py:86-88 | wherever dlt stops, no package waits twice or after landing; with nothing waiting, all it reports is what this Run extracted |
| LandingRunner.NothingIsStolen | django_connectors/landing/runner.py:126-139 | under an exclusive lease the stolen-load check cannot fire |
| LandingRunner.LoadsAreCreditedOnce | django_connectors/landing/runner.py:91-150 | over every history no load id is on two Runs' records; an ordinary Run records only its own packages, a recovery Run only earlier Runs' |
| LandingRunner.RecordIsComplete | django_connectors/landing/runner.py:116-150 | what a successful Run records is exactly what it landed |
| LandingRunner.OwnLoadsIff | django_connectors/landing/runner.py:55-63 | `execute` records only its own packages whatever dlt does, if and only if nothing waits or `allow_pending` is off |
| LandingVerdicts.CallEnds | django_connectors/services/runs.py:59-164 | the ordinary Run is SKIPPED exactly without the lease, SUCCEEDED exactly when the Binding could run, nothing was left waiting, the source was built, every stage returned, no job failed and it was saved, RUNNING exactly when the worker was lost, else FAILED; the like for the recovery Run |
| LandingVerdicts.EveryCallEnds | django_connectors/services/runs.py:59-164 | so over every history, and no later call changes an earlier Run |
| LandingVerdicts.DrainEnds | django_connectors/landing/runner.py:176-214 | a drain ends well exactly when every stage returned, no job failed and nothing is left waiting |
| LandingVerdicts.CallRecords | django_connectors/landing/runner.py:91-150 | an ordinary Run that succeeded has on record exactly what it extracted that landed, a recovery Run exactly what waited and landed, any other Run nothing |
| Delivery.MinIntervalFloor | django_connectors/scheduler/base.py:157-168 | the latest attempt plus the interval, None when either is missing |
| Delivery.Binding.Schedule | django_connectors/webhooks/views.py:272-316 | every answer leaves the dirty flag up or a Run queued |
| Delivery.Binding.EnqueueRun | django_connectors/services/runs.py:34-56 | the queued Run that stands, or a new one |
| Delivery.Binding.Turn | django_connectors/scheduler/base.py:69-85 | a due Binding is held back exactly by its floor, else claimed and queued |
| Delivery.RunDueBindings | django_connectors/scheduler/base.py:39-86 | one sweep does that to every selected Binding and returns one Run for each it claimed |
| Delivery.ScheduleIsItsStatements | django_connectors/webhooks/views.py:272-316 | one call of the view is its statements of the histories run back to back |
| Delivery.TurnIsItsStatements | django_connectors/scheduler/base.py:69-85 | so is one Binding's turn in a sweep |
| Delivery.SecondClaimWinsIff | django_connectors/scheduler/base.py:181-200 | over every history, after one scheduler's claim another's wins too if and only if the first wrote back the time the second selected |
| Delivery.BothSchedulersClaim | django_connectors/scheduler/base.py:181-200 | a history, for every interval, in which two schedulers claim one Binding |
| Delivery.HeldBackIsDueIff | django_connectors/scheduler/base.py:171-178 | over every history, a usable Binding held back until its floor is selected by a sweep before then if and only if it was dirty, or a delivery has marked it since |
| Delivery.AtMostOneQueued | django_connectors/services/runs.py:34-56 | under every interleaving and crash at most one Run is queued |
| Delivery.NoDeliveryVanishes | django_connectors/webhooks/views.py:272-316 | with no crash between claim and enqueue: after an answer, until a Run starts or is recorded as skipped, the flag is up, a Run is queued, or a scheduler is about to queue one |
| Delivery.NothingIsForgottenIff | django_connectors/services/runs.py:117-125 | over every history, whatever was answered and no Run has started for is remembered at every moment if and only if each crash in a claim and each skipped Run left something else that remembers it |
| Delivery.SkippedRunSwallowsItsDelivery | django_connectors/services/runs.py:66-70 | a history in which a delivery is accepted and no Run ever starts for it |
| Drive.Tracker.FindSubtree | django_connectors/providers/google/drive.py:380-389 | the worklist ends on any parent map, cyclic ones too, with exactly the folders a path leads down to |
| Drive.Tracker.DropSubtree | django_connectors/providers/google/drive.py:378-395 | forgets exactly the folders under the dropped one and tombstones exactly the tracked files under them, once each |
| Drive.Tracker.ApplyChange | django_connectors/providers/google/drive.py:403-449 | every branch of the feed loop, state and output |
| Drive.Tracker.Changes | django_connectors/providers/google/drive.py:397-459 | the page loop replays the pages' changes in order and moves the token only when the feed ends well |
| Drive.Tracker.WalkFolders | django_connectors/providers/google/drive.py:301-333 | the breadth-first walk ends, finds exactly the folders under the root and lands exactly the matching files in them |
| Drive.Tracker.ListDrive | django_connectors/providers/google/drive.py:301-333 | a drive-wide walk lands exactly the matching files and tracks them under a glob |
| Drive.Tracker.IterFiles | django_connectors/providers/google/drive.py:232-261 | replays the feed, or walks when there is no token or it expired, storing the token read before the walk |
| Drive.ChangeKeepsTrackingIff | django_connectors/providers/google/drive.py:425-449 | a change keeps "live is tracked" if and only if it does not remove a tracked file remembered without a parent |
| Drive.FeedKeepsTracking | django_connectors/providers/google/drive.py:352-459 | over any replay ids live and not since tombstoned are exactly the tracked files |
| Drive.ChangeKeepsRooted | django_connectors/providers/google/drive.py:409-424 | a change keeps every tracked file's and non-root folder's parent in the tree |
| Drive.FeedKeepsRooted | django_connectors/providers/google/drive.py:352-459 | the same over any replay |
| Drive.WholeDriveFeed | django_connectors/providers/google/drive.py:425-447 | drive-wide without a glob, over any feed a file is live afterwards exactly when the last change of it is no removal, or none was reported and it was live; a folder's removal lands nothing |
| Drive.GlobbedDriveFeed | django_connectors/providers/google/drive.py:425-449 | drive-wide with a glob, the same of the files it tracks: the last change is no removal and the name matches |
| DriveMirror.ChangeMirrorsIff | django_connectors/providers/google/drive.py:352-449 | applying a change as its event happens keeps the entry equal to what is really in the folder, at any depth, if and only if no folder comes into scope with folders or matching files already in it and no folder in scope is reported with no parent |
| DriveMirror.WalkMirrors | django_connectors/providers/google/drive.py:301-333 | what the cold walk leaves is exactly the folder as listed |
| DriveMirror.FeedMirrors | django_connectors/providers/google/drive.py:352-449 | from there, over any feed of events one by one, the tracked files are at every moment exactly the matching files in the folder if and only if neither of those two events occurs |
| DriveMirror.FilledFolderMovesIn | django_connectors/providers/google/drive.py:436-440 | a feed in which a folder moves in with a file in it, and the file is in the folder and not tracked |
| DriveMirror.FolderLosesItsParent | django_connectors/providers/google/drive.py:409-424 | a feed in which a folder is reported with no parent, and its file is outside and still tracked |
| DriveMirror.TrashedRootTracksNothing | django_connectors/providers/google/drive.py:409-435 | after the Binding's folder is trashed no feed whatever tracks anything again |
| DriveMirror.FileBeforeItsFolderIsMissed | django_connectors/providers/google/drive.py:436-449 | two changes in the wrong order leave a file of the folder untracked |
| Gmail.PlanIncremental | django_connectors/providers/google/gmail.py:466-544 | a walk that ends well plans everything touched and not deleted, everything deleted, and the last history id; any other fails with exactly the error it met: history too old, a failed request, a repeated token, too many pages |
| Gmail.OneEnd | django_connectors/providers/google/gmail.py:491-519 | a history walk ends in one way only |
| Gmail.EmitPlanned | django_connectors/providers/google/gmail.py:547-560 | a message or a tombstone for each changed id, then a tombstone for each deleted one |
| Gmail.Source.FullSync | django_connectors/providers/google/gmail.py:332-385 | one Run's share of a backfill: what it emits, and whether it parks, finishes or fails, state included |
| Gmail.Source.EmitMessages | django_connectors/providers/google/gmail.py:307-330 | which path a Run takes and when it succeeds: it replays unless the history is too old, and then, or without one, runs its share of a full sync; it fails exactly when that walk does; state moves only when it succeeds |
| Gmail.EachRunIsAStep | django_connectors/providers/google/gmail.py:307-385 | what a Run emits and saves, with answers as the provider promises them, is one step of mailbox, source and landing table |
| Gmail.StepKeepsInv | django_connectors/providers/google/gmail.py:307-385 | mail, failed, parked, resumed and incremental Runs keep what the stored ids promise |
| Gmail.WatermarkInvariant | django_connectors/providers/google/gmail.py:332-385 | over any interleaving every message with no event after the stored history id is landed with its present content |
| Gmail.DeletionsAreTombstoned | django_connectors/providers/google/gmail.py:521-560 | every message deleted after a committed watermark is a tombstone after the next incremental Run |
| Gmail.StartingOverKeepsIff | django_connectors/providers/google/gmail.py:312-330 | a full sync that reads a new watermark leaves no ghost rows if and only if nothing live was deleted in the gap |
| Gmail.GapLeavesAGhost | django_connectors/providers/google/gmail.py:312-330 | for every message, a history after which the source has caught up, the message is gone and its row is live |
| Gmail.CaughtUpMirrorsTheMailbox | django_connectors/providers/google/gmail.py:307-385 | caught up, and never having started over a gap, the live rows are exactly the mailbox |
| Uuid7.Generator.Next | django_connectors/_uuid.py:28-70 | a clock that moved on gives its own millisecond with counter 0, one that stands still or steps back the last millisecond with the next count, and a count that ran out the next millisecond; the counter stays inside its 12 bits and the wait ends |
| Uuid7.EncodeIsLayout | django_connectors/_uuid.py:63-70 | the shifts and ors lay the five fields side by side, none carrying into another |
| Uuid7.DecodesBack | django_connectors/_uuid.py:63-70 | timestamp, version, counter, variant and random bits read back exactly |
| Uuid7.LaterCallsLaterStamps | django_connectors/_uuid.py:31-61 | over every sequence of clock readings stamps strictly increase and the counter keeps to 12 bits |
| Uuid7.NeverBehindTheClock | django_connectors/_uuid.py:31-61 | no stamp is behind any reading of the clock |
| Uuid7.NotAheadOfTheClock | django_connectors/_uuid.py:31-61 | only a counter that ran out puts a stamp ahead: before that it is a millisecond some call read |
| Uuid7.IdsIncrease | django_connectors/_uuid.py:28-70 | ids strictly increase as integers while the timestamp fits 48 bits |
| Excel.WithoutTrailingBlanks | django_connectors/providers/microsoft/excel.py:628-633 | drops exactly the trailing blank cells |
| Excel.SheetGrid | django_connectors/providers/microsoft/excel.py:556-625 | refuses exactly when the kept cells exceed the limit, else gives the smallest rectangle that holds every value in place |
| Excel.NoneIsSmaller | django_connectors/providers/microsoft/excel.py:556-625 | no rectangle holding every value is shorter or narrower |
| Excel.SameUpToBlanks | django_connectors/providers/microsoft/excel.py:597-625 | trimming while streaming and trimming the whole sheet agree up to which blank a blank is |
| Headers.FirstFree | django_connectors/providers/google/sheets.py:621-626 | the suffix loop ends, on the first candidate not taken |
| Headers.TakenNamesCount | django_connectors/providers/google/sheets.py:621-626 | n candidates taken means n names are: suffixing is injective |
| Headers.HeaderColumns | django_connectors/providers/google/sheets.py:599-628 | exactly `width` pairwise distinct names, none reserved, each the first free one of its column |
| Headers.BaseIs | django_connectors/providers/google/sheets.py:615-620 | a header cell with text the convention can name is named by that text, trimmed; any other by its position from one |
| Headers.CellsAreTrimmed | django_connectors/providers/google/sheets.py:658-671 | a cell lands as None exactly when blank, as its trimmed text when it is text, else as it is |
| Headers.EarlierNamesStay | django_connectors/providers/microsoft/excel.py:687-715 | adding columns on the right never renames earlier ones |
| Headers.RowRecord | django_connectors/providers/google/sheets.py:646-655 | no cell overwrites another or the row number; None exactly for a blank row |
| SheetRecords.RowsFromValues | django_connectors/providers/google/sheets.py:539-596 | one record for exactly the lines below the header that are neither blank nor keyless, in order, numbered as the sheet shows them and holding every cell under the column its header cell names; refused exactly for an unknown key column, or at the first keyless line where those may not be skipped |
| SheetRecords.Records | django_connectors/providers/microsoft/excel.py:656-684 | one record for each line after the header that is not blank, in order, numbered as the sheet shows it, under the columns the header cells name; refused exactly when the header row is past the grid |

## Left out

- Physical removal: rows that an unpivot's replace deletes leave host records no replay removes, so convergence is stated as "a full replay changes nothing".
- Overlapping executions: projection executions hold no lease and one is a single step here; two that overlap can write an older value last.
- Writers: the host's writer is idempotent per identity and may raise part-way through a batch; other writers, `replace_scope` and the writer's own counts are not modelled.
- Final statuses: a worker reaped as abandoned may still save SUCCEEDED, since those writes are unconditional; the models allow it and claim no absorbing status.
- Lost Runs: a load whose worker died before saving its Run is on no Run's record; "at most one Run" is what is proved.
- Convergence.Convergence: asks that identity is an injective function of the merge key; two keys with one identity are the warning validation gives.
- Row order: the order in which rows of one scope are read is left open, which covers the order the source sorts by; `_dedup_sort_column` is not modelled, and of rows with one key in a package the first is kept.
- Landing.UnpivotCommutesWithMerge: asks that new and key columns are not the injected metadata columns and that key columns are on every row, which the code does not check.
- `compile_filters` and `compile_mapping`'s outer loop: structural checks of one branch each; validation errors are kept as kinds, without their wording.
- Validator.Validate: the target found and the mapping compiled come in as answers.
- Sweeper.ActiveLoadsStayDisjoint: runs queued by hand over chosen load ids are no event of these histories; a load id is recorded by one Run.
- Text casts, `float` and `int` parsing, `json.loads`, case folding, comparison across types, `fnmatch` and dlt's naming convention: uninterpreted deterministic functions, partial where the source may raise.
- White space is ASCII wherever text is stripped or found blank.
- Identity keys: the fallback that serialises an unhashable identity; identities here are values that compare.
- `update_mapping`'s demand that identity changes be acknowledged, and the validation it runs; records left under an earlier identity; activation, purge and reset: the guard of purge rests on flags a manual edit can bypass.
- MappingChange.ConvergenceUnderEdits: asks that every execution works from an up-to-date copy of its Projection or a harmless one, and that under the present mapping identity is an injective function of the merge key.
- Drive.Tracker.IterFiles: after an expired token deletions made meanwhile are not reported, so live ids may exceed the tracked ones; the single-file path, items with several parents and changes without a file id are not modelled.
- DriveMirror.FeedMirrors: events are reported one by one and in order, no folder is put below itself, and the Binding's folder is not trashed. A feed that only gives the latest state of an item is covered as far as its order stays one of events.
- Drive.Tracker.WalkFolders: the listing does not change while it is walked.
- Gmail.WatermarkInvariant: assumes that a finished listing has shown every message that stayed throughout, that history pages report exactly the events up to the id they name, that a deleted id is never reused, and that a profile always names a history id; label and query filters and the page-token guard of listings are not modelled.
- Gmail.Source.FullSync: a profile or message request that fails is not told apart from a listing that breaks there; both fail the Run and leave the state.
- Excel.SheetGrid: covers sheets without merged regions; `_fill_merged_ranges` is not modelled.
- LandingRunner.BindingLanding.RunBinding: blocking the Binding on a revoked credential, and what follows a success, are not modelled.
- Delivery.Binding.Turn: ends with the Run queued; dispatching it, or executing it inline, is not part of the turn.
- Delivery.RunDueBindings: takes the selected Bindings as the query gives them; its order and limit are the caller's.
- Header rows of Excel and Sheets share one loop here; Excel calls it with nothing reserved.
- The wait for the clock in `_uuid7_fallback` ends because the clock is assumed to get past any moment eventually; the lock around it is the model's atomicity.
- Timeouts, retries, throttling, credentials, preview, discovery, subscriptions, admin and the HTTP API.
