# A model of the provider framework's core, with proofs

The repository is a framework for Terraform providers (Terraform Plugin Protocol version 6). This project
models the parts of it whose correctness spans functions, processes or whole runs, and proves what its
documentation and tests promise of them.

| file | what it models |
|---|---|
| `CtyValues.dfy`, `Schema.dfy` | values with marks, unknowns and nulls; native plan data in which an unknown survives; schema trees and the rules attributes are declared by |
| `Defaults.dfy`, `DefaultsMerge.dfy` | resolving schema defaults into a configuration, and merging the effective configuration back into a plan |
| `Refinement.dfy`, `PlanApply.dfy`, `PlanPositions.dfy` | the relation apply results are judged by, the way from a plan hook's result to that judgement, and what is planned, refused and accepted at each position |
| `Lifecycle.dfy` | decoding into attrs instances, create/update/delete, the plan a resource starts from |
| `SetPairing.dfy` | which configuration a planned set element is merged with, told from the values |
| `Flattening.dfy`, `Creation.dfy`, `FlatteningExamples.dfy` | where that plan departs from the configuration, and inputs on which it does |
| `Required.dfy`, `RequiredValues.dfy` | the required-attribute walk, and its rule told on values |
| `StateLocks.dfy`, `LeaseProtocol.dfy`, `LeaseRuns.dfy` | leases, the locking protocol of threads and processes under them, and its runs |
| `Segments.dfy`, `StateStores.dfy`, `StoreHistory.dfy`, `Streaming.dfy` | file names, the two state stores, their agreement and what clients may rely on, chunked state transfer |
| `UnmarkDeep.dfy` | mark removal over a shared object graph with an explicit stack |
| `FunctionArgs.dfy` | from a Python signature to the wire and back |
| `SchemaFuture.dfy` | the shared schema computation |

Code that works step by step is written as methods and classes and proved equal to a function of its
inputs or old state; the laws are lemmas about those functions. The two concurrent parts are state
machines whose runs are arbitrary interleavings.

## What the proofs found

These promises hold only under a condition; each is stated with the exact condition and a failing input.

- A failed flush of a lease record leaves it in the file object's buffer. `exclusive_file_mutex` gives up the record
  lock before it closes the file (`src/pyvider/state_stores/_filelock.py:116-119`), and closing flushes again, over
  whatever lease another process has written by then (`LeaseRuns.SoundExactlyWhenFlushed`,
  `LeaseRuns.FailedFlushGrantsTwice`).
- `is_valid_refinement` does not accept every value a plan can resolve to: a set whose elements are all known
  at their own level, one of them holding an unknown further down, is compared whole
  (`Refinement.AcceptsEveryResolution`, `Refinement.SetOfHalfKnownObjectRefused`).
- A defaulted attribute without members whose configured value is partly unknown is planned with the unknowns flattened
  to null, at any depth, so the plan differs from the configuration (`Flattening.PlannedFollowsConfiguration`,
  `Flattening.GivenWhenKept`, `FlatteningExamples.MemberIsFlattened`); applying it is still accepted unless the unknown
  is in a set (`PlanApply.FlatteningIsHarmless`).
- A planned set element is merged with its own configuration only if the two match and neither matches anything else
  (`SetPairing.MergedWithItsOwn` has the exact condition); otherwise it goes without its defaults or takes another
  element's. A compared attribute that is known at its own level but not throughout prevents the match
  (`FlatteningExamples.RulesGoAstray`). It fails with nothing unknown, too, since what a configuration leaves null
  matches anything: of the elements `{name = "a"}` and `{}` neither is given its default
  (`FlatteningExamples.KnownPeersGoAstray`).
- A null for a defaulted parameter shifts the arguments after it to the left
  (`FunctionArgs.CallBindsAsIntended`, `FunctionArgs.NullBeforeLaterArgumentShifts`). The comment in
  `src/pyvider/functions/adapters.py:116-119` promises signature order.
- The two state stores differ where the empty type name, whose directory is the root, meets a type whose directory has
  the name of one of its files (`StoreEquivalence.EquivalentExactlyWithoutCollision`, `StoreEquivalence.EmptyTypeCollides`).
- A state class with a mandatory field the schema lacks makes every planned object a delete
  (`Lifecycle.UndeclaredMandatoryFieldDeletes`).

## Model

| member | source | states |
|---|---|---|
| `LeaseProtocol.StepLockInv` | src/pyvider/state_stores/_filelock.py:87-151 | Every step of every thread and process, crashes, timeouts and failing calls included, keeps: a thread past its mutex owns it and a mutex is owned by such a thread; a thread inside owns its process's record lock and a record lock is owned by the process of such a thread |
| `LeaseProtocol.StepInv` | src/pyvider/state_stores/filesystem.py:235-336 | Every step but a late write also keeps: a live grant is what its file records, a recorded lease was granted, lease ids are never shared |
| `LeaseProtocol.MutualExclusion` | src/pyvider/state_stores/_filelock.py:87-151 | In every reachable state at most one thread of any process is inside `exclusive_file_mutex` on one file, although record locks belong to the process, re-locking succeeds and closing any descriptor drops them |
| `LeaseProtocol.OneLiveLease` | src/pyvider/state_stores/filesystem.py:235-260 | In every state reached without a late write two leases on one file that are both granted, unreleased and unexpired are the same lease, although the clock is read before the mutex is taken |
| `LeaseProtocol.StepKeepsLiveLease` | src/pyvider/state_stores/filesystem.py:310-336 | A step other than the release of that very lease leaves a live lease recorded if and only if it is not a late write to its file: no truncate, torn write or crash of anybody else destroys it |
| `LeaseProtocol.LiveLeaseIsKept` | src/pyvider/state_stores/filesystem.py:235-272 | The same over whole runs without late writes: a grant nobody releases is still recorded whenever it has not expired |
| `LeaseProtocol.StaleUnlockIsRefused` | src/pyvider/state_stores/filesystem.py:265-272 | Where a live lease is recorded, an unlock with the id of any other lease ever granted cannot erase the record, and can always take the step that refuses it |
| `LeaseRuns.SoundExactlyWhenFlushed` | src/pyvider/state_stores/_filelock.py:112-119 | With every flush to come succeeding, two leases on one file can become live together if and only if some thread is on its way out with a record it failed to flush: the file object flushes again when it is closed, after the record lock is gone |
| `LeaseRuns.FlushedRunsReachCleanly` | src/pyvider/state_stores/filesystem.py:329-336 | Runs in which no flush of a record fails have no late write, so they never have two live leases on one file |
| `LeaseRuns.FailedFlushGrantsTwice` | src/pyvider/state_stores/filesystem.py:334-335 | From the empty store, a run with one failed flush that grants two live leases on one file |
| `LeaseRuns.LockStateDecides` | src/pyvider/state_stores/filesystem.py:235-260 | An unobstructed `lock_state` answers with a new lease if and only if no lease live at its clock reading is recorded, and otherwise with that lease as the conflict; the whole state after either, with nothing held |
| `LeaseRuns.UnlockDecides` | src/pyvider/state_stores/filesystem.py:265-272 | An unobstructed `unlock_state` answers that it unlocked, with the record empty and the lease no longer granted, if and only if the recorded lease has the given id, live or lapsed; otherwise it answers that it is not held and the record stays. Nothing is held after either |
| `LeaseRuns.GetLockReports` | src/pyvider/state_stores/filesystem.py:277-285 | An unobstructed `get_lock` answers with the recorded lease and leaves it |
| `LeaseRuns.FailuresCanHappen` | src/pyvider/state_stores/filesystem.py:329-336 | Waiting can time out, a record can be cut short, a flush can fail and leave the rest to be flushed on closing, over whatever the file holds then: none of this is ruled out by the steps |
| `LeaseRuns.LapsedLeaseIsReclaimed` | src/pyvider/state_stores/types.py:52-60 | From every reachable state, failed flushes and crashes behind it included, any idle thread of any process can take over a lease with an expiry once the clock passes it, by a run in which no process dies: calls under way end, and neither a mutex nor a record lock is leaked |
| `LeaseRuns.LapsedLeaseGivesWay` | src/pyvider/state_stores/filesystem.py:235-260 | And from every reachable state there is such a run in which no step fails at all: the calls under way complete normally, and then the file has a live lease, of one of them or of the asking thread |
| `LeaseRuns.RecordLocksAloneAreNotEnough` | src/pyvider/state_stores/_filelock.py:81-121 | Without the in-process mutex some run grants two live leases on one file |
| `StateLocks.DictRoundTrip` | src/pyvider/state_stores/types.py:62-85 | A lease survives being stored as a dictionary and read back |
| `StateLocks.NewLockExpiry` | src/pyvider/state_stores/types.py:52-60 | A new lease is expired exactly from its time-to-live on; a non-positive one never expires |
| `StateLocks.NewLockNames` | src/pyvider/state_stores/filesystem.py:251-258 | A new lease carries the id, type, state, operation, holder and time it was made with |
| `StateLocks.FromDictReads` | src/pyvider/state_stores/types.py:73-85 | A stored record reads exactly if its fields have the right kind; absent ones read as blank text and zero |
| `Segments.EncodeRoundTrip` | src/pyvider/state_stores/filesystem.py:64-99 | Decoding an encoded name gives the name back, for every name |
| `Segments.EncodeInjective` | src/pyvider/state_stores/filesystem.py:64-99 | Names are encoded alike only if they are equal |
| `Segments.EncodeConfined` | src/pyvider/state_stores/filesystem.py:64-95 | An encoded name has no separator, is not `.` or `..`, does not end in a dot or a space |
| `Segments.QuotedByte` | src/pyvider/state_stores/filesystem.py:64-95 | Letters, digits and `-._~` stand for themselves; every other byte is a percent sign and two upper-case hexadecimal digits |
| `Segments.KeptIsQuotedPrefix` | src/pyvider/state_stores/filesystem.py:64-95 | What is left after the trailing dots are cut off is the quoted form of a prefix of the name, so no escape is cut in two |
| `MemoryStore.InMemoryStateStore.ListStates` | src/pyvider/state_stores/memory.py:56-58 | Lists exactly the ids stored under the type, each once |
| `MemoryStore.InMemoryStateStore.LockState` | src/pyvider/state_stores/memory.py:60-83 | Grants a new lease unless one that has not expired is held, and changes nothing else |
| `MemoryStore.InMemoryStateStore.UnlockState` | src/pyvider/state_stores/memory.py:85-92 | Releases only the lease with the given id |
| `FileStore.FileSystemStateStore.WriteState` | src/pyvider/state_stores/filesystem.py:174-196 | The state file holds the payload after the rename, the temporary file is gone, all other files are as before |
| `FileStore.FileSystemStateStore.ListStates` | src/pyvider/state_stores/filesystem.py:212-224 | Lists the ids the state files of the type decode to, lock and temporary files left out |
| `FileStore.FileSystemStateStore.LockState` | src/pyvider/state_stores/filesystem.py:235-260 | The tree and the answer after a lock call, conflicts included |
| `FileStore.FileSystemStateStore.UnlockState` | src/pyvider/state_stores/filesystem.py:265-272 | The tree and the answer after an unlock call |
| `FileStore.FileSystemStateStore.GetLock` | src/pyvider/state_stores/filesystem.py:277-285 | Reports the recorded lease unless it has expired by a clock read last; makes nothing where nothing was ever locked |
| `StoreEquivalence.PathsDiffer` | src/pyvider/state_stores/filesystem.py:141-148 | Paths of states and locks are equal only for the same kind, type and id |
| `StoreEquivalence.IdOfStatePath` | src/pyvider/state_stores/filesystem.py:212-224 | A state path decodes to the id it was made from |
| `StoreEquivalence.ListsAgree` | src/pyvider/state_stores/filesystem.py:212-224 | A tree and a dictionary that agree list the same ids |
| `StoreEquivalence.CallAgrees` | src/pyvider/state_stores/filesystem.py:159-285 | Any one call on a tree and a dictionary that agree gives the same answer and leaves them agreeing, a process that dies before its rename included |
| `StoreEquivalence.TraceEquivalent` | src/pyvider/state_stores/memory.py:44-100 | From empty, every sequence of calls about types that do not collide gets the same answers from the file tree and from the dictionaries |
| `StoreEquivalence.EquivalentExactlyWithoutCollision` | src/pyvider/state_stores/filesystem.py:141-148 | The two are equivalent on all calls about a set of types if and only if it does not hold both the empty name and a name that is a file name of the empty type, of a state, a lock or a temporary file as `mkstemp` names it; in particular without the empty name |
| `StoreEquivalence.CollidingCalls` | src/pyvider/state_stores/filesystem.py:174-194 | For every such pair of types, two calls that the two backends answer differently |
| `StoreEquivalence.EmptyTypeCollides` | src/pyvider/state_stores/filesystem.py:141-148 | The empty type and the type `a.tfstate` are such a pair |
| `StoreEquivalence.CallKeepsTreeSound` | src/pyvider/state_stores/filesystem.py:174-224 | Whatever the types are called, no call makes a file where a directory is or a directory where a file is; one that would fails and changes nothing |
| `StoreEquivalence.ListedOnce` | src/pyvider/state_stores/filesystem.py:212-224 | No two state files decode to one id, so a list has as many entries as there are states |
| `StoreHistory.MemoryFollowsHistory` | src/pyvider/state_stores/memory.py:44-100 | Told by calls and answers alone: a read returns the last write not deleted since, a list names exactly what is stored, a lock is granted if and only if no lease granted before is both unreleased and unexpired, an unlock succeeds only with the holder's id |
| `StoreHistory.FilesFollowHistory` | src/pyvider/state_stores/filesystem.py:159-285 | The same for the file store, on every sequence of calls about types that do not collide |
| `UnmarkDeep.UnmarkDeep` | src/pyvider/conversion/marshaler.py:153-194 | Terminates on every finite object graph, cyclic ones included; rebuilds each node at most once and only reachable ones; on acyclic graphs with any sharing rebuilds every reachable node and returns the recursive unmark of the root, the original objects untouched |
| `UnmarkDeep.RebuildUnmarked` | src/pyvider/conversion/marshaler.py:133-150 | Hands back the same object or one new one, holding the children's results and no marks |
| `UnmarkDeep.CopyIsUnmarked` | src/pyvider/conversion/marshaler.py:153-194 | A graph of images of finished nodes denotes the recursive unmark, sets included |
| `UnmarkDeep.UnmarkRemovesOnlyMarks` | src/pyvider/conversion/marshaler.py:153-154 | Unmarking leaves no mark at any depth and is the identity exactly on values without marks |
| `UnmarkDeep.PushKeeps` | src/pyvider/conversion/marshaler.py:185-192 | Pushing a node, its marker and its children keeps the stack invariant |
| `UnmarkDeep.FinishKeeps` | src/pyvider/conversion/marshaler.py:175-188 | Finishing a node, with its marker or as a leaf, keeps it |
| `UnmarkDeep.TopNotInProgress` | src/pyvider/conversion/marshaler.py:181-183 | Without cycles a popped node is never in progress |
| `CtyValues.NativeRoundTrip` | src/pyvider/schema/defaults.py:169-173 | Converting to native data and validating back turns every unknown into null, drops marks, and loses nothing else |
| `CtyValues.NativeRoundTripExact` | src/pyvider/schema/defaults.py:169-173 | So it is exact if and only if the value is wholly known |
| `CtyValues.ValidateWF` | src/pyvider/protocols/tfprotov6/handlers/plan_resource_change.py:241-242 | What validates is a well-formed value of the type |
| `Refinement.Reflexive` | src/pyvider/protocols/tfprotov6/handlers/utils.py:436-485 | Every well-formed value refines itself |
| `Refinement.Transitive` | src/pyvider/protocols/tfprotov6/handlers/utils.py:436-485 | Refinement composes, chains through unknown and null included |
| `Refinement.RefinesExactly` | src/pyvider/protocols/tfprotov6/handlers/utils.py:325-485 | The verdict, told position by position without recursion: at every position of the plan outside sets the result has one of the same type, which is not unknown unless the plan is, not null unless the plan is null or unknown, and of the same keys, length or value; a set has the same elements unless one of the planned is unknown |
| `Refinement.KnownStaysKnown` | src/pyvider/protocols/tfprotov6/handlers/utils.py:342-352 | What is planned known, null included, never passes as unknown; a null accepts exactly what is not unknown of its type, an unknown anything of its type |
| `Refinement.VerdictIgnoresMarks` | src/pyvider/protocols/tfprotov6/handlers/utils.py:465-471 | The verdict is the same whatever marks are added or removed at any depth on either side |
| `Refinement.KnownAcceptsOnlyItself` | src/pyvider/protocols/tfprotov6/handlers/utils.py:436-485 | A wholly known plan without nulls accepts a value if and only if it is the plan up to marks |
| `Refinement.AcceptsEveryResolution` | src/pyvider/protocols/tfprotov6/handlers/utils.py:411-433 | A plan accepts every value its unknowns can resolve to if and only if no set in it has an element that hides an unknown while no element is unknown itself; the code inspects elements at their own level only |
| `Refinement.SettledPlanAccepted` | src/pyvider/protocols/tfprotov6/handlers/utils.py:411-433 | The plan with its unknowns turned to null is accepted exactly then, too |
| `Refinement.SetOfHalfKnownObjectRefused` | src/pyvider/protocols/tfprotov6/handlers/utils.py:411-433 | A concrete set of one object with an unknown member refuses that object with the member null |
| `Schema.AttributeDeclaration.PostInit` | src/pyvider/schema/types/attribute.py:34-221 | The ordered checks and flag writes accept exactly the expressible attributes, leave exactly one of required and optional unless provider-computed, and report the first broken rule |
| `Schema.DeclaredDefaults` | src/pyvider/schema/types/attribute.py:166-221 | An accepted attribute with a default is optional, computed, not required, not write-only, and its default validates |
| `Schema.DeclaredExactly` | src/pyvider/schema/types/attribute.py:34-221 | Which flag and default combinations are refused, rule by rule, and what the flags of an accepted attribute become |
| `Schema.DeclareIdempotent` | src/pyvider/schema/types/attribute.py:34-65 | Declaring an accepted attribute again changes nothing |
| `Defaults.ResolveIdempotent` | src/pyvider/schema/defaults.py:33-92 | Resolving twice is resolving once, at every nesting mode |
| `Defaults.ResolveCharacterized` | src/pyvider/schema/defaults.py:33-92 | The result is the one value that differs from the configuration only by defaults put where defaulted attributes were null, and leaves none of those null: unknowns, explicit values, marks, element counts and everything under a write-only attribute are untouched |
| `Defaults.AttributeResolvesTo` | src/pyvider/schema/defaults.py:74-92 | A null or absent attribute with a default becomes what the declared default validates to, with the null defaults of its own members filled if it has members; any other keeps its value but for null defaults of its members; a write-only one keeps it whole |
| `Defaults.ResolveWF` | src/pyvider/schema/defaults.py:33-92 | A well-formed value of the block's type stays one |
| `Defaults.NestedIdempotent` | src/pyvider/schema/defaults.py:328-350 | The same for one nested block |
| `DefaultsMerge.MergeSchemaDefaultsIntoPlan` | src/pyvider/schema/defaults.py:95-120 | The dict updated in place is the merge of its old contents |
| `DefaultsMerge.MergeBlockIntoPlan` | src/pyvider/schema/defaults.py:123-146 | The attribute and block loops compute the entry-by-entry merge |
| `DefaultsMerge.PlanDict.MergeAttributeDefault` | src/pyvider/schema/defaults.py:149-192 | One entry is corrected as `EntryMerged` says, all others stay |
| `DefaultsMerge.ConfigurationWins` | src/pyvider/schema/defaults.py:149-192 | Attribute by attribute: a configured value that is neither null nor unknown, the default or another, replaces what the plan has if the attribute has a default and is without members or wholly known; of another object only the members are corrected; in every other case the plan stays |
| `DefaultsMerge.MergeNestedIntoPlan` | src/pyvider/schema/defaults.py:195-230 | List blocks merge by position over the shorter length, map blocks by key, sets of more than one element by pairing; lists stay lists and tuples tuples |
| `DefaultsMerge.MergeSetIntoPlan` | src/pyvider/schema/defaults.py:233-268 | The rounds of unique pairs terminate and merge exactly the isolated edges of the match graph, each element with the configuration at its other end |
| `DefaultsMerge.UniqueIsIsolated` | src/pyvider/schema/defaults.py:243-257 | A pair unique among what is still unmatched is an isolated edge of the whole graph, and conversely |
| `DefaultsMerge.SecondRoundIsEmpty` | src/pyvider/schema/defaults.py:243-266 | A second round finds no new pair |
| `DefaultsMerge.PairingIsInjective` | src/pyvider/schema/defaults.py:253-266 | No configuration is used twice |
| `DefaultsMerge.SetMergeIgnoresOrder` | src/pyvider/schema/defaults.py:233-268 | Permuting planned elements permutes the result, permuting configured ones changes nothing |
| `DefaultsMerge.EdgesKept` | src/pyvider/schema/defaults.py:271-315 | Merging an element with a configuration it matches changes none of its match edges, to that or any other configuration |
| `DefaultsMerge.MergeIdempotent` | src/pyvider/schema/defaults.py:123-268 | Merging twice is merging once, set blocks included |
| `DefaultsMerge.NonInterference` | src/pyvider/schema/defaults.py:123-268 | Two plans merge to the same plan if and only if they differ at most where the configuration supplies a default's value (and, in sets paired by value, match the same configurations) |
| `DefaultsMerge.MergeTouchesOnlyDefaults` | src/pyvider/schema/defaults.py:114-116 | A plan and its merge agree at every position no default governs |
| `DefaultsMerge.OwnConfigurationIsKept` | src/pyvider/schema/defaults.py:95-117 | A plan that is the effective configuration is left as it is, whatever its sets look like |
| `PlanApply.HandlePlannedState` | src/pyvider/protocols/tfprotov6/handlers/plan_resource_change.py:216-242 | Exactly the computed, not required attributes that are missing or None become unknown, all else stays; a plan is returned if and only if then no required attribute that is not write-only is present and null at any depth, and it validates, and is that validation |
| `PlanApply.FinalizePlannedState` | src/pyvider/protocols/tfprotov6/handlers/plan_resource_change.py:426-445 | The same of the merge of what the hook returned |
| `PlanApply.OpenStaysOpen` | src/pyvider/protocols/tfprotov6/handlers/plan_resource_change.py:216-223 | The merge leaves an attribute to be filled exactly when the hook did and no default supplies it |
| `PlanApply.AcceptedExactly` | src/pyvider/protocols/tfprotov6/handlers/apply_resource_change.py:237-255 | For any plan a hook returns, the refinement check passes precisely the new states that hold, position by position, what is acceptable for the configuration's value where a default governs and for the plan's value where none does, and anything of the type where the provider was left to compute a value; sets are compared whole unless an element is unknown |
| `PlanApply.PlanAndApplyAgree` | src/pyvider/protocols/tfprotov6/handlers/apply_resource_change.py:221-255 | So a new state with the configuration's values where defaults govern, anything where the provider was left to compute a value, and what the plan says elsewhere, unknowns resolved, passes |
| `PlanApply.BlockAgrees` | src/pyvider/schema/defaults.py:123-146 | The same equivalence for one block at any depth; inside sets only the planned value itself is accepted |
| `PlanApply.SuppliedIsPlanned` | src/pyvider/schema/defaults.py:105-112 | Whatever the hook or prior state said, a configured attribute with a default, neither null nor unknown and, with members, wholly known, is planned as the native form of its configured value, which is that value if it is wholly known |
| `PlanApply.DefaultsBindApply` | src/pyvider/schema/defaults.py:107-112 | And a new state passes only if it has that value too, where it is wholly known and without nulls |
| `PlanPositions.HookIsPlanned` | src/pyvider/protocols/tfprotov6/handlers/plan_resource_change.py:216-242 | A write-only attribute, one configured null or unknown, and one with neither default nor members is planned as the hook left it, or unknown if it is the provider's to compute and the hook left it None |
| `PlanPositions.RefusedExactly` | src/pyvider/protocols/tfprotov6/handlers/plan_resource_change.py:239-242 | A plan is refused if and only if, merged and filled, it has a required attribute that is not write-only present and null somewhere, or does not validate |
| `PlanPositions.NullRequiredIsRefused` | src/pyvider/protocols/tfprotov6/handlers/plan_resource_change.py:229-239 | A hook that sets a required attribute to None has its plan refused, whatever is configured |
| `PlanPositions.NullPositionAccepts` | src/pyvider/protocols/tfprotov6/handlers/utils.py:342-352 | An attribute the hook left None and that is not the provider's to compute is planned null, and what passes there in the new state are exactly the values of its type that are not unknown |
| `PlanPositions.PlannedStaysKnown` | src/pyvider/protocols/tfprotov6/handlers/apply_resource_change.py:237-255 | At any depth, what is planned and not unknown is there, with its type and not unknown, in every new state that passes |
| `PlanPositions.AcceptedByPosition` | src/pyvider/protocols/tfprotov6/handlers/apply_resource_change.py:237-255 | A new state that honours plan and configuration is the same as one that passes at every position of the planned state |
| `PlanApply.SecondPlanIsTheState` | src/pyvider/protocols/tfprotov6/handlers/plan_resource_change.py:426-445 | Planning again from the applied state under the same configuration plans that state: no default is put in twice and nothing becomes unknown again |
| `PlanApply.FlatteningIsHarmless` | src/pyvider/schema/defaults.py:185-192 | A partly unknown configuration of a defaulted attribute is planned flattened; everything it can resolve to is accepted if and only if no set in it holds an unknown |
| `Lifecycle.DecodesByNamesAlone` | src/pyvider/resources/base.py:271-351 | Whether a known non-null object decodes to an instance depends only on the class's mandatory fields being among its names, not on unknowns or nulls at any depth |
| `Lifecycle.DecodedMembers` | src/pyvider/resources/base.py:271-351 | An instance is given exactly the members its class knows and initialises, less a null of the configuration that the class has a default for, each decoded as annotated |
| `Lifecycle.DecodedIsNative` | src/pyvider/resources/base.py:196-379 | Where annotations fit, a state decodes to exactly its native form at every depth |
| `Lifecycle.ApplyDeletesOnlyAbsence` | src/pyvider/resources/base.py:530-548 | If the state class's mandatory fields are schema attributes, apply deletes exactly when there is no planned object |
| `Lifecycle.PlanNeverDeletesAnObject` | src/pyvider/resources/base.py:482-501 | Then planning a proposed object, unknowns or not, is never a delete, whatever the configuration decodes to |
| `Lifecycle.PlanBranches` | src/pyvider/resources/base.py:482-501 | Exactly when planning is a delete, a create or an update: which of configuration, proposal and prior state are objects with every mandatory field, unknowns counting against configuration and prior state only |
| `Lifecycle.ApplyBranches` | src/pyvider/resources/base.py:530-548 | The same for applying |
| `Lifecycle.UndeclaredMandatoryFieldDeletes` | src/pyvider/resources/base.py:311-327 | Otherwise every planned object is taken for a delete |
| `Lifecycle.PreserveRoundTrip` | src/pyvider/resources/base.py:381-399 | The plan a resource starts from validates back to the proposed value, unknowns included, up to marks |
| `SetPairing.PreservedShape` | src/pyvider/resources/base.py:381-399 | Only a known sequence is planned as one, tuples as tuples and lists and sets as lists, and only a known map or object as a dict, partly unknown or not |
| `Lifecycle.MergeConfigIntoPlan` | src/pyvider/resources/base.py:446-466 | Write-only entries become None, empty entries take the configuration's value, all others stay |
| `Lifecycle.DefaultPlan` | src/pyvider/resources/base.py:503-520 | The plan of the default hooks, entry by entry |
| `PlanApply.PlannedAsConfigured` | src/pyvider/protocols/tfprotov6/handlers/plan_resource_change.py:426-445 | Whatever plan the hook returns and whatever was proposed, the planned state has the configuration's value under a name exactly where the hook left the attribute open, no default supplies it and the configuration is unknown, or where the merged entry honours the configuration's own value, read exactly, at every depth |
| `Flattening.PlannedFollowsConfiguration` | src/pyvider/protocols/tfprotov6/handlers/plan_resource_change.py:426-445 | With the default hooks, for every proposal and every effective configuration, defaulted entries that the proposal lacks included, the planned state has the configuration's value at an attribute or nested block if and only if `FollowsAt` holds of the proposed and the configured value: what is write-only or null in both is null, or unknown if computed; what only the configuration has is known throughout, or unknown; elsewhere the merge gives the configured value |
| `Flattening.BlockFollows` | src/pyvider/schema/defaults.py:123-268 | Merging a configuration into the plan made of a value gives a value s, marks aside, if and only if s has the configuration's value with its unknowns null wherever a default supplies one and the given value everywhere else, at every nesting mode, sets paired by value included |
| `Flattening.GivenWhenKept` | src/pyvider/schema/defaults.py:123-268 | A proposal that has the configuration's values but for what a default supplies, where it may hold anything, is merged to the configuration if and only if what defaults supply is wholly known at every depth and every element of a set of two or more finds its own configuration, with the same inside it, or is merged to its configuration's value all the same |
| `Flattening.FollowsWhereProposed` | src/pyvider/protocols/tfprotov6/handlers/plan_resource_change.py:426-445 | That is also when the plan of such a proposal follows the configuration at an entry that is configured or has a default |
| `Flattening.KeptUnlessFlattened` | src/pyvider/schema/defaults.py:163-192 | Where no set block has two elements, the configuration alone tells: the plan departs from it if and only if somewhere in it an attribute with a default and no members of its own is known but not throughout |
| `Flattening.KnownIsKept` | src/pyvider/schema/defaults.py:107-117 | A configuration known throughout, without such sets, is planned as it is |
| `Creation.ResolvedIsProposed` | src/pyvider/protocols/tfprotov6/handlers/plan_resource_change.py:95-102 | A proposal equal to the configuration as written has the values of the effective configuration, the one with defaults resolved, but for what a default supplies, at every depth |
| `Creation.CreateFollowsConfiguration` | src/pyvider/protocols/tfprotov6/handlers/plan_resource_change.py:95-102 | So for a create, read with defaults resolved on one side only, every entry that is configured or has a default is planned as the effective configuration has it exactly when no default below flattens an unknown and no set element goes astray |
| `SetPairing.OriginGoverns` | src/pyvider/schema/defaults.py:233-294 | Which configuration a planned list or set element is merged with, told from the proposed and the configured values alone: with an unknown in it a compared value matches nothing, one the configuration leaves null matches anything, and a set element needs a match that is unique on both sides |
| `SetPairing.MatchesOwnConfiguration` | src/pyvider/schema/defaults.py:271-315 | An element that agrees with its configuration off the defaulted attributes matches it if and only if no compared attribute without a default is known at its own level but not throughout, and each defaulted one is in place: the configured value, or null where that is the default |
| `SetPairing.MergedWithItsOwn` | src/pyvider/schema/defaults.py:233-268 | In a set of two or more such elements one is merged with its own configuration if and only if it matches it so, its attributes and defaults fit the configuration of no other element, and those of no other element fit its configuration; what a configuration leaves null fits anything |
| `FlatteningExamples.DefaultedListIsFlattened` | src/pyvider/schema/defaults.py:185-192 | A defaulted list configured as one unknown string is planned as one null |
| `FlatteningExamples.MemberIsFlattened` | src/pyvider/schema/defaults.py:163-183 | So is such a member of an object that has no default itself |
| `FlatteningExamples.RulesGoAstray` | src/pyvider/schema/defaults.py:233-268 | In a set block of two elements one is given the other's value for a defaulted attribute, and the other keeps its prior value where the configuration has the default |
| `FlatteningExamples.KnownPeersGoAstray` | src/pyvider/schema/defaults.py:233-268 | With nothing unknown anywhere, the set elements `{name = "a"}` and `{}` both keep null for an attribute with a default: the first matches both configurations, so no match is unique |
| `Streaming.NormalizeChunkSize` | src/pyvider/state_stores/manager.py:82-92 | The negotiated size is within Core's bounds, is the proposal where that is, the bound where it is too large and eight mebibytes where it is not positive |
| `Streaming.StateService.SetChunkSize` | src/pyvider/state_stores/manager.py:185-195 | Sets one type's chunk size and no other's |
| `Streaming.StateService.ReadStateBytes` | src/pyvider/handler.py:426-501 | A missing or empty state, a state and a failing backend each send what they should; every chunk carries a range |
| `Streaming.SentTiles` | src/pyvider/handler.py:488-501 | At every chunk size the inclusive ranges tile the state in order, only the last ends at the last byte, none exceeds the size, and the chunks join to the state; an empty state is one chunk without bytes that reports no failure |
| `Streaming.TilingIsUnique` | src/pyvider/handler.py:488-501 | It is the only such tiling with all chunks but the last full |
| `Streaming.DrainStateStream` | src/pyvider/handler.py:99-123 | Returns the last metadata, all bytes in order and the last non-zero length |
| `Streaming.StateService.WriteStateBytes` | src/pyvider/handler.py:508-563 | A stream is stored if and only if it is addressed and delivers what it last declared, if anything, and the backend takes it; otherwise the store is unchanged. The outcome and the whole store after either |
| `Streaming.ReadWriteRoundTrip` | src/pyvider/handler.py:488-549 | A state read at any chunk size and sent back is stored again byte for byte, empty states included |
| `Streaming.LostChunksAreNoticed` | src/pyvider/handler.py:525-546 | A state sent back with chunks missing from its middle or end is refused |
| `FunctionArgs.ExtractParametersMeta` | src/pyvider/functions/adapters.py:143-202 | The loop computes the advertised parameters and variadic slot |
| `FunctionArgs.DefaultsFillTheVariadicSlot` | src/pyvider/functions/adapters.py:108-140 | A default takes the variadic slot only if it is the one default and there is no `*args` |
| `FunctionArgs.WireOrderIsSignatureOrder` | src/pyvider/functions/adapters.py:108-202 | The advertised order is the signature's, whichever parameter is in the variadic slot |
| `FunctionArgs.ProcessFunctionArguments` | src/pyvider/protocols/tfprotov6/handlers/call_function.py:27-91 | Short-circuits exactly on an argument not wholly known, refuses exactly surplus arguments to a single optional one, and otherwise binds every argument that is not a null for a default |
| `FunctionArgs.BindVariadicArguments` | src/pyvider/protocols/tfprotov6/handlers/call_function.py:94-154 | Trailing arguments go to `*args`, or to the one optional parameter, or are refused |
| `FunctionArgs.BuildFunctionArguments` | src/pyvider/protocols/tfprotov6/handlers/call_function.py:185-210 | The positional arguments are the bound ones in signature order, then `*args` |
| `FunctionArgs.CallFunction` | src/pyvider/protocols/tfprotov6/handlers/call_function.py:348-398 | The count check, the short circuit, the refusal and the arguments of the call |
| `FunctionArgs.CallsMade` | src/pyvider/protocols/tfprotov6/handlers/call_function.py:348-398 | From the signature alone: when the number of arguments is refused, when the result is unknown, when there is one argument too many, and that the call is made in every other case |
| `FunctionArgs.CallBindsAsIntended` | src/pyvider/protocols/tfprotov6/handlers/call_function.py:27-210 | Every argument reaches the parameter in its position, and null ones their default, if and only if no null standing for a default comes before an argument that is delivered |
| `FunctionArgs.OneOptionalIsSafe` | src/pyvider/protocols/tfprotov6/handlers/call_function.py:136-154 | With at most one optional parameter and no `*args` that always holds |
| `FunctionArgs.NullBeforeLaterArgumentShifts` | src/pyvider/protocols/tfprotov6/handlers/call_function.py:64-67 | `f(a, b=1, c=2)` called as `f("x", null, 7)` is run with b = 7 |
| `SchemaFuture.StepInv` | src/pyvider/protocols/tfprotov6/handlers/get_provider_schema.py:314-372 | Every step keeps: a running computation is the current one and pending, a kept result is a success, answers are what their future holds |
| `SchemaFuture.OneComputation` | src/pyvider/protocols/tfprotov6/handlers/get_provider_schema.py:325-333 | In every interleaving at most one computation is in flight, and it is the one new callers join |
| `SchemaFuture.WaitersAreServed` | src/pyvider/protocols/tfprotov6/handlers/get_provider_schema.py:344-372 | No caller waits on a future that nothing will complete |
| `SchemaFuture.AnswersWereComputed` | src/pyvider/protocols/tfprotov6/handlers/get_provider_schema.py:344-372 | Whatever a caller is answered is the outcome with which the computation it waited for ended |
| `SchemaFuture.ArrivalIsAnswered` | src/pyvider/protocols/tfprotov6/handlers/get_provider_schema.py:325-344 | From every reachable state a new caller can be answered: with the kept result at once, or with whatever outcome the computation it joins or starts ends with |
| `SchemaFuture.SuccessIsServedForever` | src/pyvider/protocols/tfprotov6/handlers/get_provider_schema.py:328-344 | After a success every later caller gets that result and nothing is computed again |
| `SchemaFuture.FailureIsNotCached` | src/pyvider/protocols/tfprotov6/handlers/get_provider_schema.py:356-372 | A result with an error, or an exception, never reaches a caller that had not joined before it completed |
| `SchemaFuture.CancellationIsInvisible` | src/pyvider/protocols/tfprotov6/handlers/get_provider_schema.py:335-344 | A cancelled caller is never answered; whether a waiting caller is cancelled changes nothing for the shared result or any other caller, in any continuation |
| `SchemaFuture.UnshieldedCancelPoisons` | src/pyvider/protocols/tfprotov6/handlers/get_provider_schema.py:335-344 | Without the shield, after one cancellation no later caller is ever answered |
| `Required.RaisesForTheFirst` | src/pyvider/schema/required.py:56-131 | The walk raises if and only if a reachable required attribute is present and null, write-only ones exempt in state mode, and the path it has accumulated is that of the first one in depth-first declaration order |
| `Required.WalkReports` | src/pyvider/schema/required.py:76-131 | The path extended on the way down is the given path and the names of the position found: a name for every attribute and block, an index for a list element, a key for a map element, nothing for a set element |
| `Required.NotAfterEither` | src/pyvider/schema/required.py:70-73 | That order is antisymmetric, so the first position is determined |
| `Required.VerdictIgnoresOrder` | src/pyvider/schema/required.py:56-131 | Whether the walk raises does not depend on the order mappings are iterated in: it does if and only if somewhere a required attribute is null |
| `RequiredValues.RaisesForValues` | src/pyvider/schema/required.py:40-131 | Whether a value reaches the walk as a cty value or as plain data, it raises if and only if somewhere in the value a required attribute is null, write-only ones exempt in state mode |
| `Required.EveryEntryIsVisited` | src/pyvider/schema/required.py:127-131 | Every entry of a map block is checked under its key, in whatever order the mapping is iterated |

## Left out

- `pyvider.cty` is not visible. `cty_to_native` and `CtyType.validate` are modelled concretely as far as the code relies on them: an absent object attribute validates to null (validation of an absent attribute that is not optional is stricter there), dynamic types do not occur, and unknowns carry no refinements.
- A set's payload is an ordered sequence, as the merge code treats it; which order the library stores is not modelled, and equality of sets in the refinement check compares payloads.
- Python equality across kinds (`True == 1`) is not modelled; a boolean and a number differ.
- Two attributes, or an attribute and a block, of the same name at one schema level: Terraform refuses such schemas, and the schema proofs assume there are none.
- A configured value whose Python annotation does not fit it (a list annotation on an object, say) decodes here to the undecoded payload or to None.
- Keyword-only parameters, `**kwargs`, capability injection and parameter type inference for provider functions.
- The order `list_states` returns ids in.
- A lease record whose scalars have the wrong kind: the original coerces some of them, here it does not parse.
- The sentinel-file fallback of `_filelock.py`, whose stale reclaim is by wall clock and makes no unconditional promise.
- Waiting times and poll intervals: a lock attempt succeeds or times out nondeterministically. Times are exact reals and the clock never runs backwards; lease ids are fresh.
- Permission bits, fsync and NFS; a rename is atomic. I/O errors are modelled where the lease protocol meets them (open, lock, read, truncate, write, flush, and a close that flushes); an unlock that fails, and I/O errors of reading and writing states other than those of colliding names, are not. A failing backend appears in `Streaming` as a parameter.
- In the lease protocol the expiry test of `get_lock`, made after the mutex is left, is not a step; the recorded lease is returned as found. Which of the possible outcomes a late flush has depends on the lengths of two records, which are not modelled: all of them are allowed.
- UnmarkDeep.UnmarkDeep: on a cyclic graph only termination, sharing and reachability are stated, as the original promises no particular copy of a cycle.
- Required.RaisesForTheFirst: the iteration order of a mapping is a parameter, and so is the order of set elements as given by their payload.
- PlanApply.PlanAndApplyAgree: the plan is taken to reach the apply step unchanged; encoding it for the wire is not modelled.
- Creation.CreateFollowsConfiguration: declared defaults are taken to hold no unknown; what Terraform proposes for an update is not derived from a prior state, but is any value in `Flattening.PlannedFollowsConfiguration`.
- SchemaFuture.WaitersAreServed: cancellation of the computing task itself, at shutdown of the event loop, is not modelled.
- `_apply_schema_marks_iterative`, protobuf and msgpack encoding, diagnostics text, requires-replace paths, identity and private state, encryption, and the import, move, upgrade and ephemeral handlers.
