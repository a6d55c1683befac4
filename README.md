# CharlesCD core, modelled in Dafny

This project models six pieces of the CharlesCD continuous-deployment
platform and proves properties about them:

- **Execution tracking (butler, `wrappers.dfy`, `execution_repository.dfy`).** Butler keeps one execution row per deploy or undeploy request. Callbacks record whether the notification was delivered. Two timeout sweeps mark stale executions `TIMED_OUT`:
  - one per deployment, using the deployment's own timeout;
  - one by age in minutes, which also stops the components of the deployments it hits.

  A paged listing orders executions newest first. `ExecutionTracker.ExecutionRepository` is a class whose methods update its tables in place. Each method is proved against a function of the old tables (`Sweep`, `MinuteSweep`, `StopComponents`), and the properties are proved about those functions.
- **Default-circle namespace guard (butler, `namespace_guard.dfy`).** Suppose a circle is a default circle and already has a current default deployment. Then a request that deploys to that circle is admitted only when it targets the same namespace as that deployment.
- **Module registration (butler, `modules_service.dfy`).** An unknown module is stored as given. A known module gains only the components it does not already hold, each attached to the module. `ModulesService.ModuleRepositories` is the module repository as a class.
- **Circle queries (moove, `circle_repository.dfy`).** For each filter (name, except, active or status, page, percentage), the listing and counting code chooses a statement and builds a parameter array. The model records:
  - which circles each statement returns;
  - the placeholders of each statement, in order;
  - that the parameter arrays line up with those placeholders;
  - how pages are assembled from the query results.
- **System-token creation (gate, `system_token.dfy`).** The checks run in a fixed order: parse the authorization, then user, then permissions, then workspaces. After that the token is built and stored. The token string is a UUID with its dashes removed.
- **User-group reducer (ui, `user_group_reducer.dfy`).** The list state's transitions are appending a page, replacing a group by id, resetting, and ignoring an unknown action.

I/O becomes parameters or table snapshots:
- The clock is a parameter `now`, in whole seconds.
- The generated UUID is a parameter.
- The authorization-token parser and the repositories of the gate are total functions passed in as `Ports`. The model records the calls made through them.
- Each database table is a value, `seq` or `map`.
- A TypeORM `save` is an update-or-insert keyed by id.

## Model

Paths are relative to the repository root.

| member | source | states |
|---|---|---|
| ExecutionTracker.NotificationStatusFor | butler/src/app/v2/api/deployments/repository/execution.repository.ts:36-42 | The status is SENT exactly when the callback code is in [200, 300) and ERROR exactly otherwise |
| ExecutionTracker.ExecutionRepository.UpdateNotificationStatus | butler/src/app/v2/api/deployments/repository/execution.repository.ts:36-42 | Only the row with the given id gets the notification status derived from the code; every other row and the other tables are unchanged |
| ExecutionTracker.ExecutionRepository.UpdateStatus | butler/src/app/v2/api/deployments/repository/execution.repository.ts:59-61 | Only the row with the given id gets the new status; ids stay unique |
| ExecutionTracker.SelectTimedOut | butler/src/app/v2/api/deployments/repository/execution.repository.ts:50-57 | An execution is selected iff it is past its deployment's timeout, NOT_SENT, not already TIMED_OUT, and its deployment is current and unhealthy or unrouted |
| ExecutionTracker.ExecutionRepository.UpdateTimedOutExecutions | butler/src/app/v2/api/deployments/repository/execution.repository.ts:48-64 | Returns exactly the selected executions; the executions table becomes the sweep of the old one; deployments and components are untouched |
| ExecutionTracker.SweepChangesExactlyTheSelected | butler/src/app/v2/api/deployments/repository/execution.repository.ts:50-62 | A row changes iff it was selected, and a selected row changes only its status, to TIMED_OUT |
| ExecutionTracker.SweepIsIdempotent | butler/src/app/v2/api/deployments/repository/execution.repository.ts:48-64 | After a sweep nothing is selected, and sweeping again with the same clock changes nothing |
| ExecutionTracker.SweepWithNothingSelectedIsNoop | butler/src/app/v2/api/deployments/repository/execution.repository.ts:59-62 | When no row is selected the sweep leaves the table as it was |
| ExecutionTracker.Sweep | butler/src/app/v2/api/deployments/repository/execution.repository.ts:59-62 | The table after the sweep has as many rows as before |
| ExecutionTracker.MinuteSweep | butler/src/app/v2/api/deployments/repository/execution.repository.ts:131-138 | The table after the minute sweep has as many rows as before |
| ExecutionTracker.StopComponents | butler/src/app/v2/api/deployments/repository/execution.repository.ts:139-142 | The components table keeps its number of rows |
| ExecutionTracker.ExecutionRepository.UpdateTimedOutStatus | butler/src/app/v2/api/deployments/repository/execution.repository.ts:131-143 | Executions older than the given minutes and NOT_SENT become TIMED_OUT; the components of their deployments stop running; deployments are untouched |
| ExecutionTracker.StoppedComponentsBelongToTimedOutExecutions | butler/src/app/v2/api/deployments/repository/execution.repository.ts:139-142 | A component stops iff some timed-out execution belongs to its deployment; all others are unchanged |
| ExecutionTracker.MinuteSweepIsIdempotent | butler/src/app/v2/api/deployments/repository/execution.repository.ts:132-143 | Repeating the minute sweep with the same clock selects the same deployments and changes neither table again |
| ExecutionTracker.SortListed | butler/src/app/v2/api/deployments/repository/execution.repository.ts:92 | The listing order (created_at descending, then id descending) holds, and the result is a permutation of the input |
| ExecutionTracker.ListedBeforeTransitive | butler/src/app/v2/api/deployments/repository/execution.repository.ts:92 | The listing order is transitive |
| ExecutionTracker.ListedBeforeTotal | butler/src/app/v2/api/deployments/repository/execution.repository.ts:92 | Any two executions are comparable in the listing order |
| ExecutionTracker.LexNotLessTransitive | butler/src/app/v2/api/deployments/repository/execution.repository.ts:92 | "Not less than" on ids is transitive, which makes the id tie-break a descending order |
| ExecutionTracker.FilterCurrent | butler/src/app/v2/api/deployments/repository/execution.repository.ts:96-98 | With current true, exactly the executions of current deployments remain; any other value keeps all rows |
| ExecutionTracker.Window | butler/src/app/v2/api/deployments/repository/execution.repository.ts:93-94 | The rows starting at offset pageSize*page, in order; exactly pageSize of them, or what remains after the offset when fewer, or none when the offset is past the end |
| ExecutionTracker.ListExecutionsAndRelations | butler/src/app/v2/api/deployments/repository/execution.repository.ts:66-129 | The page is the window of the sorted, filtered executions. The total is the size of the filtered set, or 0 for an empty page. A database error gives ([], 0) |
| ExecutionTracker.FalsyCurrentAppliesNoFilter | butler/src/app/v2/api/deployments/repository/execution.repository.ts:96 | current false lists the same as current undefined |
| NamespaceGuard.FindCurrentDefault | butler/src/app/v2/api/deployments/pipes/default-circle-namespace-uniqueness.pipe.ts:36-38 | Finds the first current default deployment of the circle, or none iff there is none |
| NamespaceGuard.Transform | butler/src/app/v2/api/deployments/pipes/default-circle-namespace-uniqueness.pipe.ts:31-61 | An admitted request is returned unchanged. The request is rejected iff the circle is default and the found deployment has a different namespace |
| NamespaceGuard.NonDefaultCircleIsNotLookedUp | butler/src/app/v2/api/deployments/pipes/default-circle-namespace-uniqueness.pipe.ts:32-34 | A non-default circle is admitted whatever the deployments table holds |
| NamespaceGuard.NoCurrentDefaultAdmits | butler/src/app/v2/api/deployments/pipes/default-circle-namespace-uniqueness.pipe.ts:36-40 | With no current default deployment, any namespace is admitted |
| NamespaceGuard.GuardAdmitsOnlyTheExistingNamespace | butler/src/app/v2/api/deployments/pipes/default-circle-namespace-uniqueness.pipe.ts:36-60 | When the circle's current default deployments share namespace ns, a default-circle request is admitted iff it targets ns |
| ModulesService.NewComponents | butler/src/app/api/deployments/services/modules.service.ts:43-45 | A component is new iff the stored module lacks its id; with no stored module every incoming component is new |
| ModulesService.Upsert | butler/src/app/api/deployments/services/modules.service.ts:61-64 | After saving, the component is present. An unknown id is appended and every other entry keeps its place. For a stored id the length stays the same and each entry with that id becomes the component |
| ModulesService.AttachAllExtends | butler/src/app/api/deployments/services/modules.service.ts:53-57 | The stored components stay in place and the added ones follow, each carrying the module id |
| ModulesService.AttachAllIds | butler/src/app/api/deployments/services/modules.service.ts:53-57 | The component ids after attaching are the stored ids plus the new ones |
| ModulesService.ModuleRepositories.UpdateAndSaveComponent | butler/src/app/api/deployments/services/modules.service.ts:61-64 | The component is attached to the module and upserted into its components; nothing else changes |
| ModulesService.ModuleRepositories.SaveModule | butler/src/app/api/deployments/services/modules.service.ts:41-59 | The repository becomes the saveModule specification of the old one |
| ModulesService.ModuleRepositories.SaveNewComponents | butler/src/app/api/deployments/services/modules.service.ts:53-57 | Each new component, in order, is attached to the stored module and saved; no other module changes |
| ModulesService.SaveModuleSpecOfStored | butler/src/app/api/deployments/services/modules.service.ts:47-57 | For a stored module, saving attaches exactly its new components, which changes nothing when there are none |
| ModulesService.SaveModuleSpec | butler/src/app/api/deployments/services/modules.service.ts:41-59 | The stored module ids gain the saved module id and nothing else; every other module is unchanged; an unknown module is stored as given; a known one keeps its id and name |
| ModulesService.SaveAll | butler/src/app/api/deployments/services/modules.service.ts:33-39 | After saving every module in turn, the stored ids are the old ones plus those of every given module |
| ModulesService.SaveModuleNeverOverwrites | butler/src/app/api/deployments/services/modules.service.ts:41-59 | An unknown module is stored as given. A known module keeps its fields and its stored components as a prefix. No other module changes |
| ModulesService.NothingNewSavesNothing | butler/src/app/api/deployments/services/modules.service.ts:47-49 | A known module with no new component leaves the repository unchanged |
| ModulesService.SaveModuleCovers | butler/src/app/api/deployments/services/modules.service.ts:41-59 | Afterwards the stored module holds every component id of the saved one |
| ModulesService.SaveModuleIsIdempotent | butler/src/app/api/deployments/services/modules.service.ts:41-59 | Saving the same module twice equals saving it once |
| ModulesService.ModuleRepositories.VerifyModuleExistAndSave | butler/src/app/api/deployments/services/modules.service.ts:37-39 | Saves every module in turn |
| ModulesService.ModuleRepositories.CreateModules | butler/src/app/api/deployments/services/modules.service.ts:33-35 | Saves every module in turn |
| ModulesService.SaveAllCovers | butler/src/app/api/deployments/services/modules.service.ts:33-39 | After createModules every given module is stored with all its component ids |
| ModulesService.SaveAllOfCoveredIsNoop | butler/src/app/api/deployments/services/modules.service.ts:47-49 | When every module and component is already stored, createModules changes nothing |
| ModulesService.CreateModulesIsIdempotent | butler/src/app/api/deployments/services/modules.service.ts:33-59 | Running createModules twice with the same modules equals running it once |
| CircleRepository.CircleActiveColumn | moove/infrastructure/src/main/kotlin/io/charlescd/moove/infrastructure/repository/JdbcCircleRepository.kt:61-64 | circle_active is true iff there is a deployment whose status is neither NOT_DEPLOYED nor DEPLOY_FAILED |
| CircleRepository.StatusGrade | moove/infrastructure/src/main/kotlin/io/charlescd/moove/infrastructure/repository/JdbcCircleRepository.kt:627-630 | The grade is ACTIVE iff the status is DEPLOYED; an ACTIVE circle also has circle_active true |
| CircleRepository.InactiveMeansNothingInFlight | moove/infrastructure/src/main/kotlin/io/charlescd/moove/infrastructure/repository/JdbcCircleRepository.kt:495-501 | A circle is inactive iff none of its deployments in the workspace is DEPLOYING, DEPLOYED or UNDEPLOYING |
| CircleRepository.EveryCircleIsActiveOrInactive | moove/infrastructure/src/main/kotlin/io/charlescd/moove/infrastructure/repository/JdbcCircleRepository.kt:459-501 | Every circle, whatever its deployments, is listed by the active filter, the inactive filter, or both |
| CircleRepository.UndeployedCircleIsBothActiveAndInactive | moove/infrastructure/src/main/kotlin/io/charlescd/moove/infrastructure/repository/JdbcCircleRepository.kt:459-501 | A circle whose only deployment is UNDEPLOYED is listed under both filters |
| CircleRepository.IsActiveCircle | moove/infrastructure/src/main/kotlin/io/charlescd/moove/infrastructure/repository/JdbcCircleRepository.kt:455-459 | An active circle has a deployment; a circle is not active only when every deployment of it is NOT_DEPLOYED or DEPLOY_FAILED |
| CircleRepository.IsInactiveCircle | moove/infrastructure/src/main/kotlin/io/charlescd/moove/infrastructure/repository/JdbcCircleRepository.kt:495-501 | A circle that is not inactive has a deployment in the workspace that is DEPLOYING, DEPLOYED or UNDEPLOYING; a circle whose deployments are all NOT_DEPLOYED, DEPLOY_FAILED or UNDEPLOYED is inactive |
| CircleRepository.LinesUpDeterminesParameters | moove/infrastructure/src/main/kotlin/io/charlescd/moove/infrastructure/repository/JdbcCircleRepository.kt:172-194 | The placeholders and filter values fix the parameter array |
| CircleRepository.CreateParametersArray | moove/infrastructure/src/main/kotlin/io/charlescd/moove/infrastructure/repository/JdbcCircleRepository.kt:172-182 | The array binds, in order: the sub-select workspace (only for active false), the name pattern %name%, the workspace, then LIMIT size and OFFSET size*page |
| CircleRepository.CreateParametersSimpleCircleArray | moove/infrastructure/src/main/kotlin/io/charlescd/moove/infrastructure/repository/JdbcCircleRepository.kt:184-194 | The array binds, in order: the name pattern, the except id, the workspace, then LIMIT and OFFSET |
| CircleRepository.CreateQuery | moove/infrastructure/src/main/kotlin/io/charlescd/moove/infrastructure/repository/JdbcCircleRepository.kt:214-223 | An absent active flag lists every circle that has an author (the inner join on users); true lists the active circles; false lists the inactive ones |
| CircleRepository.AuthorlessCircleIsListedOnlyWhenFiltered | moove/infrastructure/src/main/kotlin/io/charlescd/moove/infrastructure/repository/JdbcCircleRepository.kt:435-549 | A circle without an author is never listed unfiltered, yet it is listed as active or as inactive |
| CircleRepository.CircleQuery | moove/infrastructure/src/main/kotlin/io/charlescd/moove/infrastructure/repository/JdbcCircleRepository.kt:514-549 | Lists exactly the circles whose author exists (the inner join on users), of every matcher type; its placeholders are the name pattern (when a name is given) then the workspace |
| CircleRepository.ActiveCircleQuery | moove/infrastructure/src/main/kotlin/io/charlescd/moove/infrastructure/repository/JdbcCircleRepository.kt:435-469 | Limited to percentage circles iff isPercentage is true; its placeholders line up with the parameter array for active true |
| CircleRepository.InactiveCircleQuery | moove/infrastructure/src/main/kotlin/io/charlescd/moove/infrastructure/repository/JdbcCircleRepository.kt:471-512 | Limited to percentage circles iff isPercentage is true; its placeholders start with the sub-select workspace, as the parameter array for active false does |
| CircleRepository.SimpleCircleActiveQuery | moove/infrastructure/src/main/kotlin/io/charlescd/moove/infrastructure/repository/JdbcCircleRepository.kt:551-575 | Not limited to percentage circles; placeholders line up with the simple parameter array |
| CircleRepository.SimpleCircleQuery | moove/infrastructure/src/main/kotlin/io/charlescd/moove/infrastructure/repository/JdbcCircleRepository.kt:577-599 | Not limited to percentage circles; placeholders line up with the simple parameter array |
| CircleRepository.CircleCountQuery | moove/infrastructure/src/main/kotlin/io/charlescd/moove/infrastructure/repository/JdbcCircleRepository.kt:321-340 | Counts the circles the unfiltered listing returns; placeholders line up with the parameters it is run with |
| CircleRepository.ActiveCircleCountQuery | moove/infrastructure/src/main/kotlin/io/charlescd/moove/infrastructure/repository/JdbcCircleRepository.kt:384-404 | Counts the circles the active listing returns; placeholders line up with the parameters it is run with |
| CircleRepository.InactiveCircleCountQuery | moove/infrastructure/src/main/kotlin/io/charlescd/moove/infrastructure/repository/JdbcCircleRepository.kt:406-433 | Counts the circles the inactive listing returns; placeholders line up with the parameters it is run with |
| CircleRepository.CircleSimpleCountQuery | moove/infrastructure/src/main/kotlin/io/charlescd/moove/infrastructure/repository/JdbcCircleRepository.kt:342-360 | Counts the circles the simple listing returns; placeholders line up with the simple parameter array |
| CircleRepository.CircleSimpleActiveCountQuery | moove/infrastructure/src/main/kotlin/io/charlescd/moove/infrastructure/repository/JdbcCircleRepository.kt:362-382 | Counts the circles the simple active listing returns; placeholders line up with the simple parameter array |
| CircleRepository.ActivePercentageCountQuery | moove/infrastructure/src/main/kotlin/io/charlescd/moove/infrastructure/repository/JdbcCircleRepository.kt:808-834 | Counts only percentage circles, run with no active flag, and its placeholders line up with those parameters |
| CircleRepository.InactivePercentageCountQuery | moove/infrastructure/src/main/kotlin/io/charlescd/moove/infrastructure/repository/JdbcCircleRepository.kt:836-865 | As written: counts only percentage circles, run with no active flag, and its placeholders line up with those parameters (no sub-select workspace) |
| CircleRepository.CreateQueryLimit | moove/infrastructure/src/main/kotlin/io/charlescd/moove/infrastructure/repository/JdbcCircleRepository.kt:115-121 | The same selection, with placeholders that line up with the paged parameter array |
| CircleRepository.CreateSimpleQuery | moove/infrastructure/src/main/kotlin/io/charlescd/moove/infrastructure/repository/JdbcCircleRepository.kt:225-230 | status true lists the active circles; any other value lists every circle |
| CircleRepository.CreateSimpleQueryLimit | moove/infrastructure/src/main/kotlin/io/charlescd/moove/infrastructure/repository/JdbcCircleRepository.kt:123-129 | The same selection, with placeholders that line up with the paged simple parameter array |
| CircleRepository.ExecuteCountQuery | moove/infrastructure/src/main/kotlin/io/charlescd/moove/infrastructure/repository/JdbcCircleRepository.kt:196-205 | Counts the same circles that the listing for the same active flag returns; its parameters line up |
| CircleRepository.ExecuteSimpleCircleCountQuery | moove/infrastructure/src/main/kotlin/io/charlescd/moove/infrastructure/repository/JdbcCircleRepository.kt:207-212 | As written: status true counts every circle, and anything else counts the active ones |
| CircleRepository.SimpleCountDisagreesWithList | moove/infrastructure/src/main/kotlin/io/charlescd/moove/infrastructure/repository/JdbcCircleRepository.kt:207-230 | For every status value the simple count selects differently from the simple list: a circle with no deployment is counted but not listed for status true, and listed but not counted otherwise |
| CircleRepository.SimpleCircleCountQueryCorrected | moove/infrastructure/src/main/kotlin/io/charlescd/moove/infrastructure/repository/JdbcCircleRepository.kt:207-212 | Corrected dispatch: counts the circles the simple list returns, with placeholders that line up |
| CircleRepository.InactivePercentageCountMissesListedCircle | moove/infrastructure/src/main/kotlin/io/charlescd/moove/infrastructure/repository/JdbcCircleRepository.kt:836-865 | A percentage circle whose only deployment is NOT_DEPLOYED is returned by the inactive percentage list but not by the as-written inactive percentage count |
| CircleRepository.InactivePercentageCountQueryCorrected | moove/infrastructure/src/main/kotlin/io/charlescd/moove/infrastructure/repository/JdbcCircleRepository.kt:836-865 | Corrected: counts the circles the inactive percentage list returns, with the sub-select's placeholder |
| CircleRepository.ExecuteCountQueryPercentage | moove/infrastructure/src/main/kotlin/io/charlescd/moove/infrastructure/repository/JdbcCircleRepository.kt:801-806 | As written: active true runs the active percentage count and false the inactive one; both count only percentage circles, with placeholders that line up with the parameters for no active flag |
| CircleRepository.ExecuteCountQueryPercentageCorrected | moove/infrastructure/src/main/kotlin/io/charlescd/moove/infrastructure/repository/JdbcCircleRepository.kt:801-806 | Corrected dispatch (inactive branch replaced by the corrected count): counts only percentage circles, placeholders line up, and the inactive branch is exactly the inactive percentage list's statement |
| CircleRepository.PercentageListQuery | moove/infrastructure/src/main/kotlin/io/charlescd/moove/infrastructure/repository/JdbcCircleRepository.kt:785-789 | Lists percentage circles by the active flag, with parameters that line up without a page |
| CircleRepository.CountGroupedByStatusParameters | moove/infrastructure/src/main/kotlin/io/charlescd/moove/infrastructure/repository/JdbcCircleRepository.kt:605-621 | The array binds the outer workspace, the sub-select workspace, then the name pattern |
| CircleRepository.CirclesHistoryParameters | moove/infrastructure/src/main/kotlin/io/charlescd/moove/infrastructure/repository/JdbcCircleRepository.kt:664-687 | The array binds both workspaces, the name pattern, the limit, and the offset size*page |
| CircleRepository.CountParameters | moove/infrastructure/src/main/kotlin/io/charlescd/moove/infrastructure/repository/JdbcCircleRepository.kt:726-747 | The array binds the workspace, then the name pattern |
| CircleRepository.ApplyCountQuery | moove/infrastructure/src/main/kotlin/io/charlescd/moove/infrastructure/repository/JdbcCircleRepository.kt:164-170 | A row exists iff the count is non-null and at least 1 |
| CircleRepository.TotalOrZero | moove/infrastructure/src/main/kotlin/io/charlescd/moove/infrastructure/repository/JdbcCircleRepository.kt:96 | A null count becomes 0 |
| CircleRepository.AssemblePage | moove/infrastructure/src/main/kotlin/io/charlescd/moove/infrastructure/repository/JdbcCircleRepository.kt:92-97 | A null result gives empty content and a null count a total of 0; page number and size come from the request |
| CircleRepository.AssemblePercentagePage | moove/infrastructure/src/main/kotlin/io/charlescd/moove/infrastructure/repository/JdbcCircleRepository.kt:796-798 | Without a page request the page is number 0, sized to the result |
| CircleRepository.FindCircles | moove/infrastructure/src/main/kotlin/io/charlescd/moove/infrastructure/repository/JdbcCircleRepository.kt:85-98 | The list and count statements select the same circles; each one's parameters line up with its placeholders |
| CircleRepository.FindSimpleCircles | moove/infrastructure/src/main/kotlin/io/charlescd/moove/infrastructure/repository/JdbcCircleRepository.kt:100-113 | The same, for the simple listing with the corrected count |
| CircleRepository.FindCirclesPercentage | moove/infrastructure/src/main/kotlin/io/charlescd/moove/infrastructure/repository/JdbcCircleRepository.kt:784-799 | Uses the corrected count: both statements are percentage-only and their parameters line up; the inactive count counts what the list returns |
| SystemToken.CheckRequest | gate/internal/use_case/system_token/create_system_token.go:35-66 | The checks pass iff each one passes. For each step the exact result is given: a failed parse, a failed existsByEmail, findAll or countByIds call returns that port's error, passed on; a user that does not exist gives "User not found", a different number of permissions found than asked gives "Some permissions were not found", fewer workspaces counted gives "Some workspaces were not found"; the calls made are exactly those up to the failing step |
| SystemToken.StripDashes | gate/internal/use_case/system_token/create_system_token.go:72 | The token has no '-'. Its length is the input's minus its dashes, and every other character occurs as often as before |
| SystemToken.StripDashesOfConcat | gate/internal/use_case/system_token/create_system_token.go:72 | Removing dashes distributes over concatenation, so the remaining characters keep their order |
| SystemToken.StripDashesWithoutDashes | gate/internal/use_case/system_token/create_system_token.go:72 | A string without dashes is unchanged |
| SystemToken.StripDashesIsIdempotent | gate/internal/use_case/system_token/create_system_token.go:72 | Removing dashes twice equals removing them once |
| SystemToken.CanonicalUuidBecomes32Characters | gate/internal/use_case/system_token/create_system_token.go:72 | A 36-character UUID with four dashes becomes 32 characters |
| SystemToken.Execute | gate/internal/use_case/system_token/create_system_token.go:35-80 | Create is called iff every check passes. The token it is given has the parsed email as author, the permissions found, and the dash-free UUID. A failed check or a failed Create returns the error and the empty token |
| UserGroupReducer.ReplaceById | ui/src/modules/Groups/state/reducer.ts:56-62 | Same length; each entry with the group's id becomes the group and every other entry is kept |
| UserGroupReducer.Reduce | ui/src/modules/Groups/state/reducer.ts:35-84 | Only a loaded single group changes the item; a loaded group or an unknown action leaves the list as it is; reset empties the list, and no other action shortens it |
| UserGroupReducer.LoadedUserGroupsAppends | ui/src/modules/Groups/state/reducer.ts:40-48 | The list takes the payload's fields. Its content is the old content followed by the payload's (none counts as empty). The item is kept |
| UserGroupReducer.LoadingPagesAccumulates | ui/src/modules/Groups/state/reducer.ts:40-48 | Two loaded pages accumulate their contents in order |
| UserGroupReducer.LoadedUserGroupReplacesItem | ui/src/modules/Groups/state/reducer.ts:49-54 | Only the item changes |
| UserGroupReducer.UpdateUserGroupReplacesInPlace | ui/src/modules/Groups/state/reducer.ts:55-73 | Length, ids, order, the other list fields and the item are kept. Matching entries become the group and the others are unchanged |
| UserGroupReducer.UpdateUserGroupIsIdempotent | ui/src/modules/Groups/state/reducer.ts:55-73 | Updating twice with the same group equals updating once |
| UserGroupReducer.UpdateOfUnlistedGroupIsNoop | ui/src/modules/Groups/state/reducer.ts:55-73 | Updating a group that is not listed changes nothing |
| UserGroupReducer.ResetRestoresInitialList | ui/src/modules/Groups/state/reducer.ts:22-28 | Reset sets the list to the initial list state (empty content, zeros, last false) and keeps the item |
| UserGroupReducer.OtherActionKeepsState | ui/src/modules/Groups/state/reducer.ts:35-38 | An unhandled action returns the state unchanged; an undefined state becomes the initial state |

## Left out

- Database engines, ORMs and drivers are not modelled. A query is a function over table snapshots, or a statement described by its selection and its placeholders. The `ILIKE` name match, SQL text, row mapping, JSON aggregation, `DISTINCT ON` and duplicate rows from joins are left out. In particular, `SELECT DISTINCT COUNT(*)` (lines 324, 345, 365, 387 and 409 of JdbcCircleRepository.kt) counts joined circle-and-deployment rows, so a circle with k matching deployments adds k to the total; the count rows here state agreement with the listing as sets of circles, not as numbers.
- Concurrency is not modelled. `Promise.all`, the un-awaited `forEach` of `saveModule` and the transaction of `updateTimedOutExecutions` run sequentially in list order.
- `findOne` returns the first matching row in table order, and `getMany` returns rows in table order.
- `ExecutionTracker.ExecutionRepository.UpdateTimedOutStatus`: the rows its query returns are not modelled. Minutes are whole numbers, and times are whole seconds.
- The butler enum files (`deployment-status.enum`, `notification-status.enum`, imported at execution.repository.ts:18-19) are not part of this model. The repository names only `TIMED_OUT`, `NOT_SENT`, `SENT` and `ERROR`, and every comparison in the code is by those names. The other deployment statuses of `ExecutionTracker.DeploymentStatus` (`Created` to `UndeployFailed`) are placeholders for the rest of that enum; nothing in the model depends on them.
- `ExecutionTracker.Window`: TypeORM's treatment of a zero or negative limit is not modelled. The page size and page are naturals.
- The butler `findByDeploymentId` is not modelled: it is a plain `findOneOrFail`.
- Ids are ordered lexicographically by character, matching the `e.id DESC` tie-break for ids of one format.
- `ModulesService`: a component whose id is already stored under another module is not modelled. Each module's components are its own.
- `NamespaceGuard.Transform`: the conflict's error payload is not modelled, only the rejection. As written, the payload calls `expect.anything()` (default-circle-namespace-uniqueness.pipe.ts:48), a test-framework helper, so outside tests the rejection may surface as a different exception than the `ConflictException` of line 41.
- `CircleRepository`: the circle rows' other columns (user, rules, percentage, imported records), write statements (create, update, delete), `findById`, `findDefaultByWorkspaceId`, `existsByNameAndWorkspaceId`, `getNotDefaultCirclesAverageLifeTime` and `countPercentageByWorkspaceId` are not modelled. `PageRequest.offset()` is taken to be size × page; its class is not part of this model.
- `CircleRepository.ExecuteCountQueryPercentageCorrected`: only the inactive branch is corrected, and its contract states agreement with the list only for that branch. The active percentage count's predicate (lines 808-834) also differs from the active percentage list's (lines 455-459), but which of the two is intended is not evident from the code, so it is kept as written. `FindCirclesPercentage` uses this corrected dispatcher.
- `CircleRepository.Circle`: an author is a present `user_id`; a `user_id` with no matching user row is not modelled.
- `SystemToken`: `ParseAuthorizationToken`, the repositories and `InputToDomain` are parameters; their code is not part of this model. The UUID is a parameter. Errors keep only their cause or message and the operation name.
- `UserGroupReducer`: a payload that is itself undefined is not modelled, only a payload whose `content` is absent.
- `updateTimedOutExecutions` (execution.repository.ts:59-62) only sets each selected execution's status and does not stop any component; only `updateTimedOutStatus` (lines 139-142) sets components to not running. The model follows the code.

## Findings

| source | as written | input that shows it | evidently intended | confidence | as-written member | corrected member |
|---|---|---|---|---|---|---|
| moove/infrastructure/src/main/kotlin/io/charlescd/moove/infrastructure/repository/JdbcCircleRepository.kt:207-212 | The simple-circle count counts every circle for status true and only active circles otherwise. The simple list does the opposite (lines 225-230) | status = true with one circle that has no active deployment: the list is empty but the total is 1 | The count dispatches like the list: true counts active circles, anything else counts every circle | medium, not executed | CircleRepository.SimpleCountDisagreesWithList | CircleRepository.SimpleCircleCountQueryCorrected |
| moove/infrastructure/src/main/kotlin/io/charlescd/moove/infrastructure/repository/JdbcCircleRepository.kt:836-865 | The inactive percentage count requires "no deployment AND none in flight". The list it totals (lines 495-501) uses "no deployment OR none in flight in the workspace" | a percentage circle whose only deployment is NOT_DEPLOYED: it is listed but not counted | The count uses the list's OR and the workspace-bound sub-select | medium, not executed | CircleRepository.InactivePercentageCountMissesListedCircle | CircleRepository.InactivePercentageCountQueryCorrected |
