# List reducer package generator, modelled in Dafny

This project models the core of a TypeScript Redux helper library. The library is a registry of action packages and thunks (`ReducerPackage`, `ActionPackage`). On top of that registry sits an optimistic two-dictionary cache for lists of entities (`ListReducerPackageGenerator`):

- `syncedDict` holds what the server has confirmed.
- `tempDict` holds pending local changes.
- In both dictionaries a `null` value marks a deletion.
- Server operations (add, update and delete; of one item or of a list) run through a STARTED, SUCCESS or FAILED lifecycle.
- `FINALIZE_TEMP_DICT` plans the operations that push every pending change to the server.

Everything is modelled as pure functions over immutable values:

- A dictionary is `map<string, Option<T>>`. An absent key is JavaScript `undefined`; `None` is JavaScript `null`.
- Reduce methods are Dafny arrows. A registry is a record of two maps: action packages by action type, and thunks by thunk name. Thunks are an opaque type parameter.
- Every closure that remembers the last defined state it saw is modelled as a step function. The step returns both its new default and its result.
- The order in which `Object.keys` lists a dictionary is an explicit `order` argument. `Common.IsEnumeration` constrains it to list every key exactly once.
- A server call is an input `ServerResult` (`Ok(value)` or `Err(message)`). Fresh ids for additions are an input too.
- Payloads are one datatype, `CachePayload`, with one constructor per payload shape the cache uses.

Modules, following the source files:

- `Common` (`common.dfy`) covers `common.ts`.
- `ActionPackages` (`action_package.dfy`) covers `actionPackage.ts`.
- `ReducerPackages` (`reducer_package.dfy`) covers `reducerPackage.ts`.
- `CacheState` (`cache_state.dfy`) covers the state type and its projections.
- `ActionNames` (`action_names.dfy`) covers the action-type constants and `composeActionName`.
- `CacheReducers` (`cache_reducers.dfy`) covers the dictionary handlers.
- `Lifecycle` (`lifecycle.dfy`) covers the operation thunks and the epic translations.
- `Finalize` (`finalize.dfy`) covers the finalize thunk.
- `ListGenerator` (`list_generator.dfy`) covers the generator object: its constructor, its setters and the action creators it exposes.

Two behaviours of the code, stated as lemmas:

- `ReducerPackage.addEpic` discards the epic function and registers each name with the by-pass reduce method. So the STARTED, SUCCESS and FAILED types, and `CLEAR_BOTH_DICT`, leave the state unchanged in the generated reducer.
  - `ListGenerator.LifecycleTypesReduceToItself` and `ListGenerator.ClearBothReducesToItself` state this.
  - What the epics would do is modelled separately, and composed with the reducers, in `ListGenerator.StartedThenFailedThroughReducer`, `ListGenerator.StartedThenSucceededThroughReducer` and `ListGenerator.ClearBothEpicClearsBoth`. For the finalize thunk, this is done in `Finalize.SettleAll` and `Finalize.FinalizeLeavesOnlyUngroupedKeys`.
- `appendingTempDictActionCreator` emits `APPEND_TEMP_DICT`, and the constructor files no handler under that type. So the action leaves the state unchanged (`ListGenerator.AppendingTempDictIsNoOp`).

## Model

| member | source | states |
|---|---|---|
| Common.MakePayloadedAction | src/reducer/common.ts:24-29 | the action's type is the given name and its payload is the given payload, unchanged |
| Common.ByPassReduceMethod | src/reducer/common.ts:22 | the by-pass reduce method returns the state for every payload |
| Common.GetDirectReduxMethod | src/reducer/common.ts:17-19 | the direct reduce method returns the payload whatever the state |
| ActionPackages.NewActionPackage | src/reducer/actionPackage.ts:36-40 | a new package keeps its name and reduce method, and its only creator is the default one, filed under the action name, mapping p to `{type: actionName, payload: p}` |
| ActionPackages.GenerateActionCreator | src/reducer/actionPackage.ts:72-83 | the creator is filed under `actionName.name`, or under `actionName` when the name is null or empty, replacing any creator there; every action it emits has the package's type and the generated payload; nothing else changes |
| ActionPackages.GetAction | src/reducer/actionPackage.ts:68-70 | `getAction(p)` has the package's type and payload p |
| ActionPackages.GetReducerStep | src/reducer/actionPackage.ts:58-66 | the reducer uses the state, or the default when the state is undefined; it applies the reduce method only when the type equals the package name, and otherwise returns that state |
| ActionPackages.GetReducerRemembersState | src/reducer/actionPackage.ts:60 | after a call with a defined state, a call with an undefined state starts from the remembered state |
| ActionPackages.Clone | src/reducer/actionPackage.ts:42-48 | a clone keeps the action name, shares the creator dictionary and reduces as the original does |
| ActionPackages.CloneReducesAlike | src/reducer/actionPackage.ts:42-48 | the clone's reducer closure gives the same result as the original's on every input |
| ReducerPackages.GetOrGenerateActionPackage | src/reducer/reducerPackage.ts:31-39 | an existing package is returned and the registry is unchanged; otherwise a new package is filed under the name, with the given reduce method or the by-pass method |
| ReducerPackages.AddHandler | src/reducer/reducerPackage.ts:46-49 | the first registration of a name wins: an existing package is kept as it is; a new name gets the handler as its reduce method; other entries and thunks are untouched |
| ReducerPackages.AddEpicNames | src/reducer/reducerPackage.ts:55-72 | each name not yet filed gets a by-pass package named after it; filed names keep their packages; one creator per name is returned, in input order, each emitting that name's type |
| ReducerPackages.AddEpic | src/reducer/reducerPackage.ts:55-72 | `addEpic` on one name or on a list of names adds exactly those names to the registry, each new one as a by-pass package named after it; existing packages and all thunks are kept; one creator per name is returned, emitting that name; the epic function has no effect |
| ReducerPackages.EpicNamesAreIdentity | src/reducer/reducerPackage.ts:55-72 | a name filed through `addEpic` (new, or already by-pass) leaves the state unchanged in the generated reducer |
| ReducerPackages.AddActionPackage | src/reducer/reducerPackage.ts:78-82 | the package overwrites whatever was filed under its name; the other entries are kept; the returned creator emits the package's type |
| ReducerPackages.RegisterThunk | src/reducer/reducerPackage.ts:107-112 | the thunk is stored under its name and returned unchanged; action packages are untouched |
| ReducerPackages.RegisterThunkLastWins | src/reducer/reducerPackage.ts:110 | registering twice under one name leaves the second thunk |
| ReducerPackages.GetThunkAs | src/reducer/reducerPackage.ts:114-120 | the result is defined exactly when a thunk is registered under the name, and is that thunk |
| ReducerPackages.MergeCreatorsLastWins | src/reducer/reducerPackage.ts:94-104 | when packages share a creator key, the package enumerated last provides the merged creator |
| ReducerPackages.GetActionCreators | src/reducer/reducerPackage.ts:94-104 | the merged dictionary has exactly the keys of all packages' creator dictionaries, and each value comes from a package holding that key |
| ReducerPackages.GetDispatchable | src/reducer/reducerPackage.ts:126-138 | resolution order is a registered action creator, then a registered thunk, then a creator of null-payload actions of that name; it never fails |
| ReducerPackages.DispatchableOfRegisteredName | src/reducer/reducerPackage.ts:126-130 | with default creators only, a registered name resolves to its package's default creator |
| ReducerPackages.DispatchableOfUnregisteredName | src/reducer/reducerPackage.ts:131-137 | with default creators only, an unregistered name resolves to its thunk if there is one, and otherwise to the null-payload creator |
| ReducerPackages.GenerateReducerStep | src/reducer/reducerPackage.ts:140-156 | the reducer remembers the last defined state as its default; an unknown type returns that state; a known type applies its package's reduce method to that state and the payload |
| ReducerPackages.GenerateReducerAgreesWithPackage | src/reducer/reducerPackage.ts:140-156 | the generated reducer agrees with the `getReducer` closure of the package filed under the action's type |
| ReducerPackages.Clone | src/reducer/reducerPackage.ts:19-26 | a clone has the same action names and the same thunk dictionary, and each package is cloned |
| ReducerPackages.CloneReducesAlike | src/reducer/reducerPackage.ts:19-26 | the clone's generated reducer gives the same result as the original's on every input |
| CacheState.DefaultCachedListState | src/reducer/listReducerPackageGenerator.ts:111-116 | the default state has two empty dictionaries |
| CacheState.CleanKeys | src/reducer/listReducerPackageGenerator.ts:10-12 | the keys behind the clean list are exactly the enumerated keys with a non-null value, kept in enumeration order, without repeats |
| CacheState.ToCleanList | src/reducer/listReducerPackageGenerator.ts:10-12 | the list has one element per non-null key, in the enumeration order of `CacheState.CleanKeys`, each equal to that key's value |
| CacheState.ToCleanListMembers | src/reducer/listReducerPackageGenerator.ts:10-12 | a value is in the clean list exactly when some key maps it to a non-null value |
| CacheState.ToCleanListOnePerKey | src/reducer/listReducerPackageGenerator.ts:10-12 | the keys behind the clean list enumerate exactly the non-null keys, each once |
| CacheState.ToCleanListOrderIndependent | src/reducer/listReducerPackageGenerator.ts:10-12 | any two enumerations of the keys give clean lists that are permutations of each other |
| CacheState.ModifiedCachedDict | src/reducer/listReducerPackageGenerator.ts:35-40 | the merged view's domain is the union of both domains; the temporary value wins wherever the key is pending |
| CacheState.ModifiedCachedList | src/reducer/listReducerPackageGenerator.ts:32-34 | the list holds exactly the non-null values of the merged view |
| CacheState.SyncedCachedList | src/reducer/listReducerPackageGenerator.ts:26-28 | the list holds exactly the non-null synced values |
| CacheState.TempCachedList | src/reducer/listReducerPackageGenerator.ts:29-31 | the list holds exactly the non-null pending values |
| CacheState.HasUnsavedItems | src/reducer/listReducerPackageGenerator.ts:51-53 | true exactly when the temporary dictionary is non-empty |
| CacheState.ToSelectedDictionary | src/reducer/listReducerPackageGenerator.ts:14-23 | the domain is exactly the requested keys present with a non-null value, and their values are kept |
| CacheState.GetNullDict | src/reducer/listReducerPackageGenerator.ts:353-359 | same keys, every value null |
| CacheState.ConvertItemToDict | src/reducer/listReducerPackageGenerator.ts:361-367 | a one-entry dictionary mapping the item's id to the item |
| CacheState.ConvertListToDict | src/reducer/listReducerPackageGenerator.ts:368-375 | the domain is the set of ids; on repeated ids the last item wins |
| CacheState.ConvertListToDictDistinct | src/reducer/listReducerPackageGenerator.ts:368-375 | with distinct ids every item is found under its own id |
| CacheState.ItemDictIsOneItemList | src/reducer/listReducerPackageGenerator.ts:361-375 | converting one item equals converting the one-item list |
| ActionNames.ComposeActionName | src/reducer/listReducerPackageGenerator.ts:123-125 | the type is the prefix, a dot and the name, followed by `_suffix` only for a non-empty suffix |
| ActionNames.ComposeActionNameInjective | src/reducer/listReducerPackageGenerator.ts:123-125 | under one prefix, suffix-free types are equal exactly when the names are |
| ActionNames.SuffixJoinsName | src/reducer/listReducerPackageGenerator.ts:123-125 | a suffixed type is the suffix-free type of `name_suffix`; a missing or empty suffix adds nothing |
| ActionNames.FixedTypesDistinct | src/reducer/listReducerPackageGenerator.ts:57-86 | the eleven fixed action types under one prefix are pairwise distinct |
| ActionNames.LifecycleTypesDistinct | src/reducer/listReducerPackageGenerator.ts:64-90 | the eighteen STARTED, SUCCESS and FAILED types are pairwise distinct, and none is a fixed type or an operation's thunk name |
| ActionNames.SuffixedTypeMayCollide | src/reducer/listReducerPackageGenerator.ts:123-125 | `GET_LIST` with suffix `SUCCESS` is the same type as the suffix-free name `GET_LIST_SUCCESS` |
| CacheReducers.SetTempDict | src/reducer/listReducerPackageGenerator.ts:147-157 | payload entries, null markers included, override the temporary dictionary; other pending entries and the synced dictionary stay |
| CacheReducers.SetSyncedDict | src/reducer/listReducerPackageGenerator.ts:158-173 | the synced dictionary becomes synced overridden by the payload, without null entries; the temporary dictionary stays |
| CacheReducers.SetSyncedDictWithClearTemp | src/reducer/listReducerPackageGenerator.ts:175-203 | exactly the reverted and committed keys leave the temporary dictionary; the synced dictionary is committed as by `SET_SYNCED_DICT` and holds no null |
| CacheReducers.SetSyncedDictWithClearTempDecomposes | src/reducer/listReducerPackageGenerator.ts:176-190 | removing the listed cleared ids one by one gives the same state as the set-based contract |
| CacheReducers.SetSyncedDictWithClearTempIdempotent | src/reducer/listReducerPackageGenerator.ts:175-203 | applying the committing handler twice equals applying it once |
| CacheReducers.SetSyncedDictIdempotent | src/reducer/listReducerPackageGenerator.ts:158-173 | applying `SET_SYNCED_DICT` twice equals applying it once |
| CacheReducers.AppendTempItem | src/reducer/listReducerPackageGenerator.ts:209-217 | the key now maps to the value (null included); other entries and the synced dictionary stay |
| CacheReducers.AppendTempItemIsSetTempDict | src/reducer/listReducerPackageGenerator.ts:209-217 | appending one item is setting the one-entry dictionary |
| CacheReducers.ResetTempDict | src/reducer/listReducerPackageGenerator.ts:219-224 | the temporary dictionary becomes the payload; the synced one stays |
| CacheReducers.ResetSyncedDict | src/reducer/listReducerPackageGenerator.ts:225-230 | the synced dictionary becomes the payload, or `{}` when it is undefined; the temporary one stays |
| CacheReducers.ClearTempDict | src/reducer/listReducerPackageGenerator.ts:232-245 | with a key list exactly those keys leave the temporary dictionary; without one it is emptied; the synced one stays |
| CacheReducers.ClearSyncedDict | src/reducer/listReducerPackageGenerator.ts:246-259 | with a key list exactly those keys leave the synced dictionary; without one it is emptied; the temporary one stays |
| CacheReducers.ClearTempDictIdempotent | src/reducer/listReducerPackageGenerator.ts:232-245 | clearing twice equals clearing once |
| CacheReducers.HandlersTouchOneDictionary | src/reducer/listReducerPackageGenerator.ts:147-259 | each handler changes only its own dictionary (the committing one changes both), and only `RESET_SYNCED_DICT` can put a null into a synced dictionary that holds none |
| Lifecycle.EntryIds | src/reducer/listReducerPackageGenerator.ts:401-630 | additions are keyed by fresh ids, updates and deletions by the indexer's id |
| Lifecycle.ListStartedDict | src/reducer/listReducerPackageGenerator.ts:443-456 | the list STARTED mapping has the entry ids as keys, with null values for a deletion and the (last) item otherwise |
| Lifecycle.ItemStartedDict | src/reducer/listReducerPackageGenerator.ts:401-414 | the item STARTED mapping has one key, a fresh id for an addition and the indexer's id otherwise, with null for a deletion and the item otherwise |
| Lifecycle.ItemStartedIsOneItemList | src/reducer/listReducerPackageGenerator.ts:401-456 | the item mapping equals the list mapping of the one-item list |
| Lifecycle.ListCommittedDict | src/reducer/listReducerPackageGenerator.ts:422-441 | the committed mapping is keyed by the returned items' ids, with null values for a deletion |
| Lifecycle.ItemCommittedDict | src/reducer/listReducerPackageGenerator.ts:379-399 | the committed mapping is the returned item under its id, null for a deletion |
| Lifecycle.Execute | src/reducer/listReducerPackageGenerator.ts:379-399 | without a registered server function nothing is dispatched and the run fails with "method is not found"; otherwise, when both the server call and the conversion succeed, SUCCESS carries the STARTED mapping as reverted and the converted result as committed; when either throws, FAILED carries the STARTED mapping and that error is rethrown |
| Lifecycle.RunItemOperation | src/reducer/listReducerPackageGenerator.ts:401-414 | an item operation dispatches its own `prefix.OP_ITEM_STARTED` with its mapping, then its own `…_ITEM_SUCCESS` when the server call succeeds, reverting that same mapping and committing the converted result, or its own `…_ITEM_FAILED` with the same payload when it fails |
| Lifecycle.RunListOperation | src/reducer/listReducerPackageGenerator.ts:443-456 | a list operation dispatches its own `prefix.OP_LIST_STARTED` with its mapping, then its own `…_LIST_SUCCESS` when the server call succeeds, reverting that same mapping and committing the converted result, or its own `…_LIST_FAILED` with the same payload when it fails |
| Lifecycle.RunCustom | src/reducer/listReducerPackageGenerator.ts:830-852 | a custom operation dispatches STARTED with its arguments; then SUCCESS with nothing reverted and the converted result committed when the server call and `toDictFunc` both succeed, or FAILED with the arguments and a rethrow of the error when either throws |
| Lifecycle.CustomListDict | src/reducer/listReducerPackageGenerator.ts:771-775 | a custom list result is committed as an addition's list mapping |
| Lifecycle.CustomDeletedListDict | src/reducer/listReducerPackageGenerator.ts:777-781 | a deleting custom list result is committed as a deletion's list mapping |
| Lifecycle.CustomItemDict | src/reducer/listReducerPackageGenerator.ts:806-813 | a custom item result is committed as an addition's item mapping |
| Lifecycle.CustomDeletedItemDict | src/reducer/listReducerPackageGenerator.ts:820-827 | a deleting custom item result is committed as a deletion's item mapping |
| Lifecycle.StartedEpic | src/reducer/listReducerPackageGenerator.ts:632-636 | STARTED translates to `SET_TEMP_DICT`, forwarding its payload (the pending mapping) unchanged |
| Lifecycle.SuccessfulEpic | src/reducer/listReducerPackageGenerator.ts:740-746 | SUCCESS translates to `SET_SYNCED_DICT_WITH_CLEAR_TEMP`, forwarding its payload unchanged |
| Lifecycle.FailedEpic | src/reducer/listReducerPackageGenerator.ts:734-738 | FAILED translates to `CLEAR_TEMP_DICT` whose key list enumerates the cancelled mapping's keys |
| Lifecycle.ClearBothEpic | src/reducer/listReducerPackageGenerator.ts:260-263 | `CLEAR_BOTH_DICT` translates to `CLEAR_TEMP_DICT` then `CLEAR_SYNCED_DICT`, each with the same payload |
| Lifecycle.StartedThenFailed | src/reducer/listReducerPackageGenerator.ts:632-636 | setting then clearing a STARTED mapping removes exactly its keys from the temporary dictionary and leaves the synced one alone |
| Lifecycle.StartedThenSucceeded | src/reducer/listReducerPackageGenerator.ts:740-746 | setting a STARTED mapping and then committing removes the started and committed keys from the temporary dictionary and commits without nulls |
| Lifecycle.StartedShowsPending | src/reducer/listReducerPackageGenerator.ts:632-636 | while an operation is pending, the merged view shows its entries |
| Lifecycle.SucceededShowsCommitted | src/reducer/listReducerPackageGenerator.ts:740-746 | after a success the merged view shows committed values and drops committed deletions |
| Finalize.InGroup | src/reducer/listReducerPackageGenerator.ts:284-299 | a grouped key has a non-null value in its group's source dictionary |
| Finalize.GroupsPartitionPendingKeys | src/reducer/listReducerPackageGenerator.ts:284-299 | the add, update and delete groups are pairwise disjoint; every non-null pending key is an add or an update; a null pending key is a delete exactly when its synced value is non-null; otherwise it is in no group |
| Finalize.GroupKeys | src/reducer/listReducerPackageGenerator.ts:284-297 | a group's keys are exactly the enumerated keys satisfying the group's filter, without repeats |
| Finalize.GroupList | src/reducer/listReducerPackageGenerator.ts:286-298 | a group's list holds each key's value from the group's source dictionary |
| Finalize.PlanGroup | src/reducer/listReducerPackageGenerator.ts:303-334 | a registered list function gives one list operation over the whole group; failing that, an item function gives one operation per key with that key's one-entry mapping; with neither, nothing |
| Finalize.FinalizePlan | src/reducer/listReducerPackageGenerator.ts:279-334 | the plan is the add group's operations, then the update group's, then the delete group's; a pending key is planned exactly when it is in the group of an operation that has a registered list or item function |
| Finalize.FinalizePlanCoversGroups | src/reducer/listReducerPackageGenerator.ts:284-334 | with every operation registered, a key is planned exactly when it is in some group |
| Finalize.FinalizePlanEntries | src/reducer/listReducerPackageGenerator.ts:284-334 | every planned entry belongs to its operation's group and carries that key's source value |
| Finalize.SettleAll | src/reducer/listReducerPackageGenerator.ts:734-746 | if the SUCCESS and FAILED epics were wired, then once every operation has settled no started key would be pending and the remaining pending entries would be unchanged |
| Finalize.FinalizeLeavesOnlyUngroupedKeys | src/reducer/listReducerPackageGenerator.ts:734-746 | if the SUCCESS and FAILED epics were wired, then after the whole plan had settled only keys in no group would still be pending, with their original values |
| ListGenerator.AddHandlers | src/reducer/listReducerPackageGenerator.ts:147-259 | the handlers are filed in order; a type already filed keeps its package; each new handler type reduces through its handler |
| ListGenerator.NewGenerator | src/reducer/listReducerPackageGenerator.ts:143-277 | the constructor files the eight handler types and `CLEAR_BOTH_DICT` (by-pass) and registers the finalize thunk; packages already in a given registry are kept |
| ListGenerator.NewGeneratorIsWired | src/reducer/listReducerPackageGenerator.ts:143-277 | in a registry without the prefixed fixed types, every handler type reduces through its handler, `CLEAR_BOTH_DICT` is by-pass and the finalize thunk is present |
| ListGenerator.FixedTypeIsHandlerType | src/reducer/listReducerPackageGenerator.ts:147-259 | the handler types are exactly the fixed types other than `APPEND_TEMP_DICT`, `CLEAR_BOTH_DICT` and `FINALIZE_TEMP_DICT` |
| ListGenerator.DictActionReducesThroughHandler | src/reducer/listReducerPackageGenerator.ts:147-259 | in a wired generator, a dictionary action reduces through its handler |
| ListGenerator.ClearBothReducesToItself | src/reducer/listReducerPackageGenerator.ts:260-263 | `CLEAR_BOTH_DICT` itself leaves the state unchanged in the generated reducer |
| ListGenerator.ClearBothEpicClearsBoth | src/reducer/listReducerPackageGenerator.ts:260-263 | reducing the two translated actions clears the listed keys (or everything) from both dictionaries |
| ListGenerator.AppendingTempDictAction | src/reducer/listReducerPackageGenerator.ts:264 | the creator emits `APPEND_TEMP_DICT` with the dictionary as payload |
| ListGenerator.AppendingTempItemAction | src/reducer/listReducerPackageGenerator.ts:265-268 | the creator emits `APPEND_TEMP_ITEM` with the key and value as payload |
| ListGenerator.ResettingDictAction | src/reducer/listReducerPackageGenerator.ts:269-270 | the resetting creators send the dictionary, or `{}` when called without one |
| ListGenerator.SettingDictAction | src/reducer/listReducerPackageGenerator.ts:271-272 | the setting creators send the dictionary unchanged |
| ListGenerator.ClearingDictAction | src/reducer/listReducerPackageGenerator.ts:273-275 | the clearing creators send the key list, or undefined without one |
| ListGenerator.AppendingTempDictIsNoOp | src/reducer/listReducerPackageGenerator.ts:264 | in a generator built on a new registry, the appending-dictionary action leaves the state unchanged |
| ListGenerator.ResettingTempWithoutDictEmptiesIt | src/reducer/listReducerPackageGenerator.ts:269 | resetting the temporary dictionary without an argument empties it |
| ListGenerator.SetOnOperation | src/reducer/listReducerPackageGenerator.ts:401-414 | a setter files the operation's STARTED, SUCCESS and FAILED types (by-pass when new), registers its thunk under `prefix.OP_GRANULARITY` and records the server function; other packages stay |
| ListGenerator.SetOnOperationKeepsWiring | src/reducer/listReducerPackageGenerator.ts:401-630 | registering an operation never disturbs the handlers, `CLEAR_BOTH_DICT` or the finalize thunk |
| ListGenerator.LifecycleTypesReduceToItself | src/reducer/listReducerPackageGenerator.ts:401-414 | after a setter, its lifecycle types leave the state unchanged in the generated reducer |
| ListGenerator.NewGeneratorLacksLifecycleTypes | src/reducer/listReducerPackageGenerator.ts:143-277 | the constructor files no lifecycle type |
| ListGenerator.AddEpicOnPhase | src/reducer/listReducerPackageGenerator.ts:638-729 | an `addEpicOn…` call files exactly its one lifecycle type and changes nothing else |
| ListGenerator.SetOnCustom | src/reducer/listReducerPackageGenerator.ts:830-852 | a custom setter files `prefix.name_SUCCESS` and registers its thunk under `prefix.name`; other packages stay |
| ListGenerator.SetOnCustomKeepsWiring | src/reducer/listReducerPackageGenerator.ts:830-852 | a custom setter keeps the generator wired exactly when its name is not `FINALIZE_TEMP_DICT` |
| ListGenerator.StartedThenFailedThroughReducer | src/reducer/listReducerPackageGenerator.ts:632-636 | STARTED then FAILED, translated and reduced, removes the started keys from the temporary dictionary and leaves the synced one alone |
| ListGenerator.StartedThenSucceededThroughReducer | src/reducer/listReducerPackageGenerator.ts:740-746 | STARTED then SUCCESS, translated and reduced, retires the started and committed keys and commits the result without nulls |

## Left out

- `generateId` and `numberToAlphaNumeric` (random ids from `Math.random` and the clock) are left out. Fresh ids for additions are an input.
- `getModifiedCachedListWithValidIdDesc` and `getModifiedCachedListWithValidId` are left out. They need date parsing, a sort and a property of the entity type.
- The asynchronous execution of thunks is left out: promises, `await` and the `Promise.all` fan-out in the finalize thunk. Each operation is a sequential run with a given server outcome. Interleavings of concurrent operations are not modelled. `Finalize.SettleAll` only covers the state after every operation has settled.
- Finalize as written leaves `tempDict` unchanged. The SUCCESS and FAILED actions it dispatches have by-pass types, because `addEpic` drops the epics (`ListGenerator.LifecycleTypesReduceToItself`). `Finalize.SettleAll` and `Finalize.FinalizeLeavesOnlyUngroupedKeys` state what the epics would do if they were wired; nothing in this library wires them.
- The redux-observable epic plumbing is left out (commented out in the source), as are the redux store, the thunk middleware and the `utils.ts` glue. The epic functions are kept only as the translations modelled in `Lifecycle`.
- The server simulator, the test helpers and the abstract generator base class are not part of this model.
- The plain accessors have no contract of their own. On `ActionPackage` these are `getActionName`, `getDefaultActionCreator`, `getReduceMethod`, `getEpics` and `getActionCreators`. On `ReducerPackage` they are `getEpics` (the concatenation of every package's epics, always empty because `addEpic` drops the epics) and `getRegisteredActionNames` (`Object.keys` of the package dictionary). On `ListReducerPackageGenerator` the accessor is `getReducerPackage`. The `with…` and `on…` chaining wrappers only call the modelled setters.
- `setOnGettingList`, `setOnGettingItem`, `setOnGettingCustomList`, `setOnDoingCustomList`, `setOnDeletingCustomList`, `setOnGettingCustomItem`, `setOnDoingCustomItem` and `setOnDeletingCustomItem` are modelled through `ListGenerator.SetOnCustom`. Each one's conversion function is a `Lifecycle.Custom…Dict` function.
- Thunks are opaque values. A registered thunk is identified by what it does (`ListGenerator.CacheThunk`) rather than by a closure.
- Variadic creator arguments (`...args`) are left out. A creator takes one payload argument; custom operations take one argument of a type parameter.
- The sharing of creator dictionaries between a cloned package and its original is left out. Sharing mutable state has no counterpart in immutable values. A clone holds an equal dictionary.
- ReducerPackages.Clone: the clone and the original share one thunk dictionary object, so a later `registerThunk` on either is seen by both; the model copies the dictionary. Likewise a generator fills the registry its caller passes in, so several generators built on one registry see each other's later setters; `ListGenerator.NewGenerator` returns a new value instead. Aliasing of mutable objects is outside a model of immutable values.
- Keys that JavaScript objects inherit from `Object.prototype` (`constructor`, `toString`, …) are outside the model; a dictionary lookup of such a key is taken to be `undefined`. The source sees the inherited member instead. This affects the finalize groups (`syncedDict[key] !== undefined`), `generateReducer`, `getThunkAs`, `getDispatchable` and `toSelectedDictionary`.
- JavaScript truthiness of entity values is left out. Entities are taken to be objects, so always truthy. Under that assumption `toSelectedDictionary`'s `!dict[key]` test reads as "absent or null", and `state || defaultState` reads as "state if defined".
- Key order is an explicit argument. The order `Object.keys` actually uses (integer-like keys first, then insertion order) is not modelled.
- Lifecycle.Execute: a dispatch that throws is not modelled; the modelled reducers never throw. Such a throw would also land in the `catch`, giving FAILED and a rethrow. A conversion that throws is modelled, as an `Err` outcome of `toDict`.
- Lifecycle.RunItemOperation: the identifier function is taken to be total. The source can still reach FAILED after a call that resolved: `identifier` might throw on the returned item inside the `try` (listReducerPackageGenerator.ts:386). The model does not cover that, nor a call that resolves to a value that is not an item.
- Lifecycle.RunListOperation: the identifier function is taken to be total, and the resolved value is a list. So a resolved call whose `convertListToDict` throws is not modelled. That covers `undefined` in place of a list, and an identifier that throws. In the source such a call dispatches FAILED and rethrows (listReducerPackageGenerator.ts:601, 610-612).
- Lifecycle.RunCustom: the dispatch of STARTED is inside the `try` (listReducerPackageGenerator.ts:834). If it threw, the source would dispatch FAILED without SUCCESS. The modelled reducers never throw, so this case is not modelled. A `toDictFunc` that throws is modelled, as an `Err` conversion. The custom conversions the generator itself passes (`Lifecycle.Custom…Dict`) are total under a total identifier.
- CacheReducers.ApplyHandler: the source handlers receive whatever payload an action carries, with no type check. A payload of a shape the handler does not expect leaves the state unchanged in the model; the JavaScript handler would misbehave or throw. In particular, `RESET_TEMP_DICT` dispatched with an undefined payload is not modelled (the creator never sends one).
