# A verified model of the permissions service

The service keeps users, groups, roles, role bindings and a containment tree of resources in a
metadata store. It compiles them into relation tuples, keeps an authorization engine up to date by
writing only the difference from a remembered projection, and asks the engine for every decision.
This project models the compiler, the relation model the engine interprets, the synchronizer, the
metadata operations and the role update protocol in Dafny, and proves what they promise together.

Main results:

- **Compiler correctness** (`Correctness.CompilerCorrect`). Evaluating the relation model over the
  projection of the metadata allows exactly what some binding grants, for every user, permission and
  stored resource. It needs no assumption that all bindings compile.
- **Synchronization over whole runs** (`Projection.RunsKeepAgreement`,
  `ReachableStates.FreshRunSynchronizes`). Engine and remembered projection agree after every
  operation that is not cut between its two writes, and after a successful one equal the projection
  of the current metadata, whatever failed before.
- **Recovery, exactly** (`Projection.RecoveryIff`, `Projection.UndoDoesNotRecover`). When a
  synchronization that was cut is repaired by the next one, and when it is not.
- **No lost role update** (`RoleRace.NoLostUpdate`, `RoleRace.AtMostOneSuccess`), in every
  interleaving of the two reads and the transaction of any number of clients.
- **Carried out exactly when it should be** (`Refusals.RefusedIffReason`). From a synchronized state an
  operation is carried out if and only if some binding gives its actor the permission the policy
  demands, and the request is well formed, names stored rows and meets no duplicate, stale revision or
  child. A refusal changes nothing, and its error is a true reason.
- **Decisions change as promised** (`Effects`, `Decisions`). For every operation: the rows it leaves,
  and every decision afterwards, for every user, permission and resource.
- **The mutable service does this** (`Service.Service`): every method over the store and engine
  objects is proved equal to the operation the results above are about.

Three expectations are false of the code. Each has its exact condition and a concrete state:

- Creating a binding that does not compile leaves it stored, and every later synchronization fails
  (`Counterexamples.UncompilableBindingStays`). Stored bindings all compile after an operation exactly
  when the binding just created compiles (`ReachableStates.PlanKeepsCompiling`).
- An exact list naming a target twice is accepted, its tuples are written, and recording the
  projection fails on its primary key (`Counterexamples.RepeatedTargetIsAccepted`,
  `Projection.RepeatedTargetBlocksSync`). The API description asks for unique lists; no code checks
  it. Recording succeeds exactly when no binding repeats a target it emits for
  (`Projection.SyncSucceedsIff`, `Synchronizer.DesiredListed`).
- After a cut synchronization, undoing the change and synchronizing leaves the engine with the tuples
  of the undone change (`Counterexamples.CutMembershipStays`); the exact condition is
  `Projection.RecoveryIff`.

Modules: `Catalog`, `AuthModel` (model.fga), `Compiler`, `Metadata`, `Correctness`; `Encoding`, `Slug`,
`KeyedDiff`, `Diff`, `Lists`; `ScopeRules`, `Operations`, `Invariants`, `Seed`; `Projection`,
`Decisions`, `Authorization`, `Effects`, `Refusals`, `ReachableStates`, `LegacyLevels`, `Uniqueness`,
`Counterexamples`, `RoleRace`; and the classes in `Store`, `Service` with their helpers in `Synchronizer`.
`Operations.Run` is the meaning of one whole operation: its guards in the source's order, its change
to the tables, then the synchronization. `dafny verify dfyconfig.toml` checks everything.

## Model
| member | source | states |
|---|---|---|
| Catalog.CreatePermissionFitsParent | internal/catalog/catalog.go:120-150 | the create permission of a type applies to each type it may hang from, its delete permission to itself, and parents rank strictly higher |
| Compiler.InheritanceAgrees | internal/openfga/model.fga:38-93 | the relation a child type inherits for a permission is the relation the compiler picks for it on the parent type |
| Compiler.RelationDeterminesPermission | internal/openfga/openfga.go:205-227 | on one type no two permissions share a relation |
| Compiler.RelationIsDefined | internal/openfga/model.fga:14-93 | every relation picked, and every relation a supported check asks for, is defined for the type |
| Compiler.PermissionTuples | internal/openfga/openfga.go:169-203 | the nested loops fail exactly on the bindings that do not compile, and otherwise list one tuple for each permission at the scope, or at every listed resource it is catalogued for, and no other |
| Compiler.TupleListContents | internal/openfga/openfga.go:184-202 | the same of the specified list: a permission is emitted at the scope, or at each listed resource it is catalogued for, without exception |
| Compiler.RowsDistinct | internal/openfga/openfga.go:184-202 | no tuple is emitted twice iff the permissions are distinct and no target it emits for is listed twice |
| Compiler.EmittedIsWellTyped | internal/openfga/model.fga:14-93 | every emitted tuple satisfies the type restrictions of the relation model |
| Metadata.ParentRanksHigher | internal/catalog/catalog.go:120-133 | in the stored forest a parent ranks strictly higher and has a type the relation model admits |
| Metadata.AtOrBelowIsReachability | internal/openfga/openfga.go:159-167 | climbing parents is reachability over the parent tuples, in both directions |
| Metadata.AtOrBelowTransitive | internal/service/service.go:365-382 | being at or below is transitive |
| Metadata.AtOrBelowAntisymmetric | internal/service/service.go:365-382 | being at or below is antisymmetric |
| Metadata.AllBelowController | internal/service/service.go:117-119 | every stored resource lies below the controller |
| Metadata.AncestorsAreKnown | internal/service/service.go:365-382 | every ancestor of a stored resource is stored or the controller |
| Metadata.DesiredByObject | internal/openfga/openfga.go:147-167 | which tuples of each kind of object the projection holds, in both directions |
| Correctness.GrantDenotesCovered | internal/openfga/model.fga:10-12 | the userset of a grant denotes exactly the users its binding covers, directly or through a group |
| Correctness.AllowedIffGranted | internal/openfga/model.fga:14-93 | evaluation and meaning agree for every permission that has a relation on the type, by induction up the tree |
| Correctness.CompilerCorrect | internal/openfga/openfga.go:97-114 | a supported check over the projection allows exactly when some binding covers the user with a role holding the permission and the resource lies at or below its scope, or at or below a listed resource the permission is catalogued for |
| Encoding.QualifiedIsFlattened | internal/openfga/openfga.go:213 | replacing dots and dashes of a permission name spells the relation model.fga spells |
| Encoding.FamilyIsFirstSegment | internal/openfga/openfga.go:212 | the text before the first dot of a permission name is its family |
| Encoding.PermissionNamesDistinct | internal/catalog/catalog.go:14-39 | permission names are distinct |
| Encoding.RelationNamesDistinct | internal/catalog/catalog.go:66-74 | relation names are distinct |
| Encoding.LookupIsInverse | internal/catalog/catalog.go:82-89 | looking up a name finds exactly the permission of that name |
| Encoding.LifecycleNames | internal/catalog/catalog.go:135-184 | the permissions guarding creation and deletion of a type are its own family's create and delete permissions by name |
| Encoding.KeysDistinct | internal/service/service.go:649 | over identifiers without separators two tuples with one key are one tuple |
| Slug.Slug | internal/store/store.go:694-708 | the dash-flag loop returns the maximal runs of letters and digits of the lower-case name joined by single dashes |
| Slug.SlugNormalForm | internal/store/store.go:694-708 | every slug is in normal form, slugging is idempotent, and no slug holds a tuple separator |
| Slug.SlugSplits | internal/store/store.go:694-708 | at any character that is no letter or digit a name falls into two pieces slugged apart and joined by one dash |
| Slug.SlugOfWord | internal/store/store.go:694-708 | a name of letters and digits is lowered and kept whole |
| Slug.TrimSpaceTrims | internal/store/store.go:194 | trimming drops leading and trailing spaces, all of them and nothing else |
| KeyedDiff.Diff | internal/service/service.go:648-669 | each result holds, once per key, an element of one list for every key the other lacks |
| KeyedDiff.KeyDifferenceIsSetDifference | internal/service/service.go:648-669 | where keys tell elements apart the result is the set difference |
| Diff.TupleDiff | internal/service/service.go:648-669 | writes and deletes are the two key differences of current and desired |
| Diff.DiffReachesDesired | internal/service/service.go:648-669 | over clean identifiers they are the set differences, free of repetition, and turn current into desired |
| Diff.SortedIsUnique | internal/store/store.go:366 | a permission set has one listing in name order |
| Diff.Unique | internal/store/store.go:709-721 | the result is the input's elements, sorted, each once |
| Diff.DiffPermissions | internal/service/service.go:616-638 | added and removed are the two set differences, each sorted and free of repetition |
| ScopeRules.IsWithinScope | internal/service/service.go:365-382 | the loop computes the specified climb and terminates on the stored forest |
| ScopeRules.WithinScopeDecides | internal/service/service.go:365-382 | on stored resources the climb never misses a row and decides at-or-below |
| ScopeRules.FindManagementScope | internal/service/service.go:279-291 | the loop computes the specified climb and terminates on the stored forest |
| ScopeRules.ManagementScopeIsNearest | internal/service/service.go:279-291 | on stored resources it ends on the nearest stored model or the controller |
| Operations.ParseAllReadsNames | internal/service/service.go:592-602 | a list is accepted iff it is not empty and every entry is the name of a permission; it is then read place by place, and its set is exactly the permissions named |
| Invariants.PlanKeeps | internal/service/service.go:127-552 | every operation keeps the forest, the references, valid selectors, exact targets in scope, the seeded model roles, at most one compatibility binding per user and model, and clean identifiers |
| Invariants.RunKeeps | internal/service/service.go:29-552 | the same for whole operations, however their synchronization ends |
| Invariants.ValidatedBinding | internal/service/service.go:311-363 | a stored binding's role, subject, scope and targets exist, its targets lie in its scope and none is a controller |
| Invariants.TargetsErrorFree | internal/service/service.go:344-356 | target validation passes iff every target is stored and within the scope |
| Invariants.NewResourceParent | internal/service/service.go:499-524 | a created resource has a parent of an allowed type that is stored or is the one controller |
| Seed.SeedIsWellFormed | internal/store/store.go:77-130 | the seed satisfies the invariant, compiles, and can be recorded |
| Projection.WriteReachesDesiredIff | internal/service/service.go:292-310 | one write ends in the desired set iff engine and memory disagree on no tuple the engine has wrong |
| Projection.SyncSucceedsIff | internal/service/service.go:29-63 | an undisturbed synchronization succeeds iff all bindings compile and none repeats a target it emits for |
| Projection.SyncOutcome | internal/service/service.go:292-310 | under every interruption the memory moves to the projection on success only, and the engine is untouched or follows the projection on exactly the tuples where projection and memory differ |
| Projection.SyncKeepsAgreement | internal/service/service.go:292-310 | from agreement every outcome not cut between the writes ends in agreement, and success ends synchronized |
| Projection.RecoveryIff | internal/service/service.go:292-310 | after a cut and a metadata change the next synchronization repairs the engine iff no tuple of the cut write has to change back |
| Projection.RepeatRecovers | internal/service/service.go:292-310 | with unchanged metadata it always repairs |
| Projection.UndoDoesNotRecover | internal/service/service.go:292-310 | with the change undone it never does |
| Projection.RepeatedTargetBlocksSync | internal/store/store.go:173-191 | a repeated target makes every synchronization fail although its tuples reach the engine |
| Projection.DistinctListsAreRecordable | internal/store/store.go:173-191 | with distinct exact lists recording never meets its primary key |
| Projection.PlanBindings | internal/service/service.go:127-552 | the only binding rows an operation may add or change |
| Projection.SkippedSyncIsHarmless | internal/service/service.go:127-184 | creating users, groups and roles leaves the projection unchanged |
| Projection.StepKeepsAgreement | internal/service/service.go:29-63 | one operation keeps agreement, and ends synchronized when it synchronizes successfully |
| Projection.RunsKeepAgreement | internal/service/service.go:29-63 | over every run without cuts engine and memory agree after each operation |
| Decisions.CheckIsGranted | internal/service/service.go:67-93 | in a synchronized state the service's check answers what the bindings grant |
| Decisions.CheckAnswers | internal/service/service.go:67-93 | the check by name: malformed, unknown and unsupported questions are told apart exactly, and every other is answered by the bindings |
| Decisions.DeleteBindingRemovesOnlyItsOwn | internal/service/service.go:261-277 | afterwards a decision is allowed iff another binding supplies it |
| Decisions.CreateBindingAddsOnlyItsOwn | internal/service/service.go:241-260 | afterwards a decision is allowed iff it was, or the new binding gives it |
| Decisions.ExactIsConfined | internal/openfga/openfga.go:184-201 | a validated exact binding gives a permission only on a listed resource, or machine creation on an application of a listed model |
| Decisions.LegacyRolesNest | internal/store/store.go:93-95 | reader, writer and administrator permissions are strictly nested and compile on a model scope |
| Decisions.RevokeNeverAdds | internal/service/service.go:414-465 | a revocation allows nothing new to anyone and changes only that user's decisions at or below that model |
| Decisions.StillAuthorizedBelowAdmin | internal/service/service.go:451-464 | after revoking administrator or write access the user still reads the model |
| Decisions.UpdateRoleChangesOnlyItsDifference | internal/service/service.go:221-233 | a role update changes no decision on a permission that is listed iff the role held it before |
| Decisions.UpdatedRole | internal/store/store.go:406-454 | the stored permissions are exactly those whose names are listed, no other role changes, and every binding of the role compiles under them |
| Authorization.ChangesAreAuthorized | PERMISSIONS_API.md:312-323 | an operation carried out from a synchronized state was granted to its actor as the permission the policy demands, at the place it demands it |
| Authorization.UncoveredUserChangesNothing | internal/service/service.go:107-116 | a user no binding covers has every operation refused with nothing changed |
| Refusals.RefusedIffReason | PERMISSIONS_API.md:461-469 | from a synchronized state an operation is carried out iff it is authorized where the policy demands, well formed, not blank, names stored rows, and meets no duplicate, stale revision or child; a refusal changes nothing and its error is one of these and true |
| Refusals.GrantedIsNotForbidden | PERMISSIONS_API.md:312-323 | whoever some binding gives the demanded permission at the demanded place is never told the operation is forbidden |
| Refusals.ModelAdministratorGrants | internal/service/service.go:384-413 | whoever manages policy on a model grants its access to any stored user, needing nothing on the controller |
| Refusals.GuardIsDemand | internal/service/service.go:107-116 | where the policy demands one permission at one place, the guard there passes iff the request is named, the place known and the actor granted, and its error says which failed |
| Refusals.BindingGuard | internal/service/service.go:279-290 | the guard of a binding operation, at the nearest enclosing model or controller, passes iff the scope is known and the actor is granted policy management there |
| Refusals.TargetsBlame | internal/service/service.go:344-356 | the error of target validation names a missing row or a target outside the scope, truthfully |
| Effects.CarriedOutAsPlanned | internal/service/service.go:127-552 | a refused operation leaves all three stores as they were, and an operation whose synchronization fails stores its change |
| Effects.DecidesAfter | internal/service/service.go:29-63 | after any success from a synchronized state the engine decides by the bindings then stored |
| Effects.UserIsCreated | internal/store/store.go:193-204 | exactly one row is added, the trimmed name under its slug, when neither is taken |
| Effects.GroupIsCreated | internal/store/store.go:227-238 | the same for a group |
| Effects.MemberIsAdded | internal/store/store.go:290-299 | afterwards the memberships are the old ones and this one, and no other table changes |
| Effects.MemberIsRemoved | internal/store/store.go:300-310 | the membership was stored; afterwards the memberships are the old ones without it, and no other table changes |
| Effects.AdditionGivesOnlyTheGroup | internal/service/service.go:145-153 | afterwards the user is allowed exactly what some binding gives the user directly or through the old groups and this one; nobody else's decision changes |
| Effects.RemovalTakesOnlyTheGroup | internal/service/service.go:154-162 | afterwards the user is allowed exactly what some binding gives the user directly or through another group; nobody else's decision changes |
| Effects.RoleIsCreated | internal/store/store.go:329-353 | one row is added under the slug, at revision 1, holding exactly the permissions whose names are listed |
| Effects.RoleIsUpdated | internal/store/store.go:406-454 | only that row and the log change: exactly the permissions whose names are listed, the next revision, and one log entry with what was replaced and written |
| Effects.UpdateDecidesAsProposed | internal/service/service.go:221-233 | afterwards every decision is what the bindings give with the listed names in place of the role's permissions |
| Effects.BindingIsCreated | internal/store/store.go:462-470 | one row is added, with the requested subject, role, scope and selector |
| Effects.BindingIsDeleted | internal/store/store.go:554-564 | the row was stored and is gone, and every other row is unchanged |
| Effects.LegacyIsGranted | internal/store/store.go:472-496 | the user's row on the model, or a new one if there was none, holds the requested role; every other row is unchanged |
| Effects.LegacyIsRevoked | internal/service/service.go:430-450 | the row held exactly the named access and is one level lower, or gone; every other row is unchanged |
| Effects.GrantSetsTheLevel | internal/service/service.go:384-413 | afterwards a decision is allowed iff another binding gives it, or the user asks at or below the model for a permission of the requested access |
| Effects.RevokeLowersTheLevel | internal/service/service.go:414-450 | afterwards a decision is allowed iff another binding gives it, or the user asks at or below the model for a permission of the access one level down |
| Effects.ResourceIsCreated | internal/store/store.go:566-578 | one row is added, the trimmed name under a stored parent of an allowed type |
| Effects.CreationInheritsFromParent | internal/service/service.go:499-533 | no decision on a stored resource changes, and the new one is open to exactly those whom some binding gives the permission at its parent |
| Effects.ResourceIsDeleted | internal/store/store.go:628-638 | the row was stored without a child and is gone, and every other row is unchanged |
| Effects.DeletionTouchesOnlyTheResource | internal/service/service.go:534-552 | checks on the resource find nothing any more, and no decision on any other stored resource changes |
| ReachableStates.PlanKeepsCompiling | internal/service/service.go:185-259 | after an operation all stored bindings compile iff a binding just created compiles |
| ReachableStates.CompilabilityIsKept | internal/service/service.go:185-465 | every operation but a failed creation keeps all bindings compiling, and any successful synchronization shows it |
| ReachableStates.ProjectionIsWellTyped | internal/openfga/model.fga:4-93 | every tuple of a reachable projection is admitted by the relation model and spelt from clean identifiers |
| ReachableStates.ReachableIsWellFormed | internal/service/service.go:499-552 | every state reachable from a fresh seed satisfies the invariant |
| ReachableStates.ClimbsSucceed | internal/service/service.go:279-382 | in reachable states both climbs succeed on stored resources |
| ReachableStates.ExactTargetsStayInScope | internal/service/service.go:340-356 | in reachable states a still stored exact target lies in its binding's scope, which is stored too |
| ReachableStates.FreshRunSynchronizes | cmd/server/main.go:45-48 | from a fresh seed, after any run without cuts a successful synchronizing operation leaves engine, memory and projection equal |
| LegacyLevels.LevelByRow | internal/store/store.go:498-508 | a user has one compatibility binding per model, of one of the three model roles |
| LegacyLevels.LevelMoves | internal/service/service.go:384-465 | a revocation lowers the level by exactly one, a grant sets it, anything else keeps it or deletes it |
| LegacyLevels.RevocationsAreBounded | internal/service/service.go:414-450 | without a grant in between a run revokes at most as many levels as there were, three at most |
| LegacyLevels.OrphanOutlivesRun | PERMISSIONS_API.md:380-382 | a binding whose scope was deleted is still stored, unchanged, at the end of every run |
| Uniqueness.UpsertKeepsRowsDistinct | internal/store/store.go:472-496 | the upsert never meets the uniqueness rule of the bindings |
| Uniqueness.ReachableRowsAreUnique | internal/store/store.go:51-67 | names and binding rows are unique in every reachable state |
| Counterexamples.UncompilableBindingStays | internal/service/service.go:252-258 | a concrete binding is refused by the synchronization, stays stored, and blocks the next one |
| Counterexamples.RepeatedTargetIsAccepted | internal/service/service.go:340-356 | a concrete exact list with a repetition passes validation and cannot be recorded |
| Counterexamples.CutMembershipStays | internal/service/service.go:302-309 | a concrete cut and undone membership is left in the engine by a successful synchronization |
| RoleRace.ExecutionIsConsistent | internal/store/store.go:406-442 | every interleaving keeps what each client knows right while its expected revision is current |
| RoleRace.NoLostUpdate | internal/store/store.go:422-436 | in every interleaving the revision is one more than the logged updates and the log of a role is an unbroken chain of permission sets |
| RoleRace.AtMostOneSuccess | internal/store/store.go:422-429 | in every interleaving at most one client succeeds per role and revision, and each success is logged |
| RoleRace.AloneIsSequential | internal/store/store.go:406-442 | a client running alone does what the service's role update does |
| Store.Store.constructor | internal/store/store.go:77-130 | a fresh store holds the seed and no projection |
| Store.Store.ListSyncedTuples | internal/store/store.go:155-171 | lists exactly the remembered tuples |
| Store.Store.ReplaceSyncedTuples | internal/store/store.go:173-191 | replaces the remembered tuples, or changes nothing on a repeated tuple or a failure |
| Store.Store.FindCompatibility | internal/store/store.go:498-508 | finds a compatibility binding iff there is one |
| Store.InsertAll | internal/store/store.go:182-189 | inserting under string keys succeeds iff no tuple is listed twice |
| Store.Engine.Write | internal/openfga/openfga.go:116-145 | one atomic set update, not sent when empty, that leaves the tuples unchanged when it fails |
| Store.Engine.Check | internal/openfga/openfga.go:97-114 | answers by the relation model, or fails for a permission that does not apply |
| Synchronizer.BindingList | internal/service/service.go:51-61 | lists the tuples of all bindings iff all compile, repeating a tuple iff some binding repeats a target it emits for |
| Synchronizer.DesiredListed | internal/service/service.go:29-62 | parents, memberships and bindings together list the projection, without repetition iff no binding repeats a target |
| Synchronizer.DesiredTuples | internal/service/service.go:29-62 | the three loops list the projection or fail when a binding does not compile |
| Service.Service.Sync | internal/service/service.go:29-63 | ends in exactly the state and error of the specified synchronization, under each interruption |
| Service.Service.ReplaceTuples | internal/service/service.go:292-310 | writes the difference from the remembered tuples, then remembers the desired ones |
| Service.Service.Check | internal/service/service.go:67-93 | answers the specified check of the named permission |
| Service.Service.Require | internal/service/service.go:107-116 | passes iff the check succeeds and allows |
| Service.Service.CreateUser | internal/service/service.go:127-132 | refused with nothing changed by the first failing guard, or stores the trimmed name under its slug; never touches projection or engine |
| Service.Service.CreateGroup | internal/service/service.go:139-144 | the same for a group |
| Service.Service.AddGroupMember | internal/service/service.go:145-153 | refused with nothing changed unless allowed and both rows exist; otherwise the membership stays stored even when the synchronization fails |
| Service.Service.RemoveGroupMember | internal/service/service.go:154-162 | refused with nothing changed for a missing membership; otherwise it is gone (`Effects.MemberIsRemoved`), even when the synchronization fails |
| Service.Service.ValidatePermissions | internal/service/service.go:592-602 | accepts iff the list is not empty and every entry names a permission, and returns the named permissions place by place |
| Service.Service.CreateRole | internal/service/service.go:176-184 | stores exactly the permissions whose names are listed (`Effects.RoleIsCreated`) at revision 1, not built in, or changes nothing |
| Service.Service.PreviewRoleUpdate | internal/service/service.go:185-220 | accepts iff the update would; its added and removed lists turn the stored permissions into exactly the named ones, and it counts the stored bindings of the role |
| Service.Service.RecompileBindings | internal/service/service.go:211-218 | accepts iff every binding of the role compiles under the proposal |
| Service.Service.UpdateRole | internal/service/service.go:221-233 | changes role and audit log only when the preview accepts, to exactly the permissions whose names are listed (`Effects.RoleIsUpdated`) |
| Service.Service.CheckTargets | internal/service/service.go:344-356 | returns the first error among the targets |
| Service.Service.ValidateBinding | internal/service/service.go:311-363 | returns the specified validation error, or none |
| Service.Service.CreateBinding | internal/service/service.go:241-260 | the first failing guard, in the source's order, refuses with nothing changed; otherwise the row is stored and stays stored when the synchronization fails |
| Service.Service.DeleteBinding | internal/service/service.go:261-277 | refused when the enclosing policy scope is not found or not managed by the actor; otherwise the row is gone and the rest of the tables unchanged |
| Service.Service.UpsertCompatibilityBinding | internal/store/store.go:472-496 | replaces the role of the one compatibility binding or inserts one |
| Service.Service.GrantLegacy | internal/service/service.go:384-413 | asks for policy management on the model alone (`Refusals.RefusedIffReason`) and ends with the requested model role in the user's one row on it, or changes nothing |
| Service.Service.LowerLegacy | internal/service/service.go:414-458 | lowers or removes the access as specified and synchronizes |
| Service.Service.RevokeLegacy | internal/service/service.go:414-465 | also reports whether the user still reads the model, with the error of that last check |
| Service.Service.CreateResource | internal/service/service.go:499-533 | stores the resource only under an existing parent of an allowed type on which the actor may create it, then synchronizes |
| Service.Service.DeleteResource | internal/service/service.go:534-552 | removes a stored leaf the actor may delete (`Effects.ResourceIsDeleted`), then synchronizes; anything else changes nothing |

## Left out
- Generated API types, HTTP status mapping, process start-up and the command line: no state of their own.
- The engine's client, server and settings: the engine is a set of tuples, one atomic write that may fail, and the evaluator of model.fga. The server's limit on tuples per write is one way that write may fail.
- SQL text, key prefixes matched with LIKE, JSON columns, contexts, time stamps and error messages: tables are maps and sets, and errors are the seven kinds of `ScopeRules.Error`.
- The order of rows: a listing visits rows in any order, so which of several compile errors comes first is not modelled.
- Random identifiers: each is a parameter, required to be clean and mentioned nowhere in the metadata.
- Tuples and relations are structured values; `Encoding` proves their spellings tell them apart, and the diff and the projection table work on the spellings.
- Permission names outside the catalogue: refused by name lookup before anything is stored, so the compiler is modelled on catalogued permissions only.
- Type strings outside the enumerations are one value each, all refused alike.
- Re-seeding on reopen and resetting the store: runs start from one fresh seed.
- Interleavings of whole service operations: the service holds no lock; only the role update at the store is modelled as interleaved steps.
- Application configuration, resource status, the descriptions of seeded roles, the SSH message, listing users, groups, roles and resources, and batch checks: easy members.
- Authentication, and limiting what a caller may delegate: not implemented by the service.
- Invalid UTF-8 in names: names are sequences of characters, and characters that are no letter before or after lowering stay as they are.
- Service.Service.RevokeLegacy: an error of the final check is reported after the revocation is stored; the runs count the revocation, not that error.
- ScopeRules.IsWithinScope: the branch for a resource without a parent is not modelled, because every stored resource has one.
- ScopeRules.FindManagementScope: likewise without the branch for a resource without a parent.
