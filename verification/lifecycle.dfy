/**
 The lifecycle of one server operation. An operation thunk dispatches a
 STARTED action carrying the pending entries it creates, awaits the server,
 then dispatches SUCCESS (the pending entries to retire and the server's
 entries to commit) or FAILED (the pending entries to cancel) and rethrows.
 The epics translate these three into dictionary actions. The server's answer
 and the generated identifiers of new items are inputs.
 */
module Lifecycle {
  import opened Common
  import opened CacheState
  import opened CacheReducers
  import Names = ActionNames

  /** What awaiting the server yields: a value, or a thrown error. */
  datatype ServerResult<R> = Ok(value: R) | Err(error: string)

  const METHOD_NOT_FOUND: string := "method is not found"

  /** The actions one run dispatched, in order, and what it returned or
      threw. */
  datatype Run<T, A, R> = Run(dispatched: seq<Action<CachePayload<T, A>>>, result: ServerResult<R>)

  /** The identifiers of a list's entries: generated ones for an addition,
      the indexer's otherwise. */
  function EntryIds<T>(op: Names.Op, list: seq<T>, indexer: T -> string, freshIds: seq<string>): (ids: seq<string>)
    requires |freshIds| == |list|
    ensures |ids| == |list|
    ensures op == Names.Add ==> ids == freshIds
    ensures op != Names.Add ==> forall i :: 0 <= i < |list| ==> ids[i] == indexer(list[i])
  {
    if op == Names.Add then freshIds else IndexedIds(list, indexer)
  }

  /** The pending entries a list operation's thunk dispatches with STARTED:
      each item under its identifier, as a delete marker for a deletion. */
  function ListStartedDict<T>(op: Names.Op, list: seq<T>, indexer: T -> string, freshIds: seq<string>): (d: Dict<T>)
    requires |freshIds| == |list|
    ensures d.Keys == SetOf(EntryIds(op, list, indexer, freshIds))
    ensures op == Names.Delete ==> forall k :: k in d ==> d[k] == None
    ensures op != Names.Delete ==>
              forall k :: k in d ==> d[k] == Some(list[LastIndexOf(EntryIds(op, list, indexer, freshIds), k)])
  {
    var entries := ConvertListToDict(list, EntryIds(op, list, indexer, freshIds));
    if op == Names.Delete then GetNullDict(entries) else entries
  }

  /** The pending entry an item operation's thunk dispatches with STARTED. */
  function ItemStartedDict<T>(op: Names.Op, item: T, indexer: T -> string, freshId: string): (d: Dict<T>)
    ensures op == Names.Add ==> d.Keys == {freshId}
    ensures op != Names.Add ==> d.Keys == {indexer(item)}
    ensures forall k :: k in d ==> d[k] == if op == Names.Delete then None else Some(item)
  {
    var entry := ConvertItemToDict(item, if op == Names.Add then freshId else indexer(item));
    if op == Names.Delete then GetNullDict(entry) else entry
  }

  /** An item operation's STARTED entry is that of the one-item list. */
  lemma ItemStartedIsOneItemList<T>(op: Names.Op, item: T, indexer: T -> string, freshId: string)
    ensures ItemStartedDict(op, item, indexer, freshId) == ListStartedDict(op, [item], indexer, [freshId])
  {
    var id := if op == Names.Add then freshId else indexer(item);
    assert EntryIds(op, [item], indexer, [freshId]) == [id];
    ItemDictIsOneItemList(item, id);
  }

  /** The entries a successful list operation commits: the server's items
      under the indexer's identifiers, nulled for a deletion. */
  function ListCommittedDict<T>(op: Names.Op, returned: seq<T>, indexer: T -> string): (d: Dict<T>)
    ensures d.Keys == SetOf(IndexedIds(returned, indexer))
    ensures op == Names.Delete ==> forall k :: k in d ==> d[k] == None
    ensures op != Names.Delete ==>
              forall k :: k in d ==> d[k] == Some(returned[LastIndexOf(IndexedIds(returned, indexer), k)])
  {
    var entries := ConvertListToDict(returned, IndexedIds(returned, indexer));
    if op == Names.Delete then GetNullDict(entries) else entries
  }

  /** The entry a successful item operation commits. */
  function ItemCommittedDict<T>(op: Names.Op, returned: T, indexer: T -> string): (d: Dict<T>)
    ensures d.Keys == {indexer(returned)}
    ensures d[indexer(returned)] == if op == Names.Delete then None else Some(returned)
  {
    var entry := ConvertItemToDict(returned, indexer(returned));
    if op == Names.Delete then GetNullDict(entry) else entry
  }

  /** `startExecuting*`: without a registered server function the run throws
      "method is not found" and dispatches nothing. Otherwise the server
      call and the conversion of its result both run inside the `try`: when
      both succeed the run dispatches SUCCESS, retiring `started` and
      committing the converted result; when either throws it dispatches
      FAILED, cancelling `started`, and rethrows. The conversion's outcome
      is an input like the server's: `Err` stands for a conversion that
      throws. */
  function Execute<T, A, R>(prefix: string, op: Names.Op, g: Names.Granularity, registered: bool,
                            started: Dict<T>, server: ServerResult<R>, toDict: R -> ServerResult<Dict<T>>)
    : (run: Run<T, A, R>)
    ensures !registered ==> run.dispatched == [] && run.result == Err(METHOD_NOT_FOUND)
    ensures registered ==> |run.dispatched| == 1
    ensures registered && server.Ok? && toDict(server.value).Ok? ==>
              && run.result == server
              && run.dispatched[0] == Action(Names.LifecycleType(prefix, op, g, Names.Succeeded),
                                             SuccessPayload(SuccessfulPayload(started, toDict(server.value).value)))
    ensures registered && server.Err? ==>
              && run.result == server
              && run.dispatched[0] == Action(Names.LifecycleType(prefix, op, g, Names.Failed), DictPayload(started))
    ensures registered && server.Ok? && toDict(server.value).Err? ==>
              && run.result == Err(toDict(server.value).error)
              && run.dispatched[0] == Action(Names.LifecycleType(prefix, op, g, Names.Failed), DictPayload(started))
  {
    if !registered then Run([], Err(METHOD_NOT_FOUND))
    else
      var failed := MakePayloadedAction(Names.LifecycleType(prefix, op, g, Names.Failed), DictPayload(started));
      match server
      case Ok(v) =>
        (match toDict(v)
         case Ok(d) =>
           Run([MakePayloadedAction(Names.LifecycleType(prefix, op, g, Names.Succeeded),
                                    SuccessPayload(SuccessfulPayload(started, d)))], server)
         case Err(e) => Run([failed], Err(e)))
      case Err(e) => Run([failed], Err(e))
  }

  /** The thunk of an item operation: STARTED with the item's pending entry,
      then the execution's SUCCESS or FAILED. */
  function RunItemOperation<T, A>(prefix: string, op: Names.Op, item: T, indexer: T -> string, freshId: string,
                                  server: ServerResult<T>): (run: Run<T, A, T>)
    ensures run.result == server && |run.dispatched| == 2
    ensures run.dispatched[0] == Action(Names.LifecycleType(prefix, op, Names.Item, Names.Started),
                                        DictPayload(ItemStartedDict(op, item, indexer, freshId)))
    ensures server.Ok? ==>
              && run.dispatched[1].payload.SuccessPayload?
              && run.dispatched[1].payload.success.revertedTempDict == run.dispatched[0].payload.dict
              && run.dispatched[1].payload.success.committedSyncedDict == ItemCommittedDict(op, server.value, indexer)
    ensures run.dispatched[1].actionType ==
              Names.LifecycleType(prefix, op, Names.Item, if server.Ok? then Names.Succeeded else Names.Failed)
    ensures server.Err? ==> run.dispatched[1].payload == run.dispatched[0].payload
  {
    var started := ItemStartedDict(op, item, indexer, freshId);
    var rest := Execute(prefix, op, Names.Item, true, started, server,
                        (v: T) => Ok(ItemCommittedDict(op, v, indexer)));
    Run([MakePayloadedAction(Names.LifecycleType(prefix, op, Names.Item, Names.Started), DictPayload(started))]
        + rest.dispatched, rest.result)
  }

  /** The thunk of a list operation. */
  function RunListOperation<T, A>(prefix: string, op: Names.Op, list: seq<T>, indexer: T -> string, freshIds: seq<string>,
                                  server: ServerResult<seq<T>>): (run: Run<T, A, seq<T>>)
    requires |freshIds| == |list|
    ensures run.result == server && |run.dispatched| == 2
    ensures run.dispatched[0] == Action(Names.LifecycleType(prefix, op, Names.List, Names.Started),
                                        DictPayload(ListStartedDict(op, list, indexer, freshIds)))
    ensures server.Ok? ==>
              && run.dispatched[1].payload.SuccessPayload?
              && run.dispatched[1].payload.success.revertedTempDict == run.dispatched[0].payload.dict
              && run.dispatched[1].payload.success.committedSyncedDict == ListCommittedDict(op, server.value, indexer)
    ensures run.dispatched[1].actionType ==
              Names.LifecycleType(prefix, op, Names.List, if server.Ok? then Names.Succeeded else Names.Failed)
    ensures server.Err? ==> run.dispatched[1].payload == run.dispatched[0].payload
  {
    var started := ListStartedDict(op, list, indexer, freshIds);
    var rest := Execute(prefix, op, Names.List, true, started, server,
                        (v: seq<T>) => Ok(ListCommittedDict(op, v, indexer)));
    Run([MakePayloadedAction(Names.LifecycleType(prefix, op, Names.List, Names.Started), DictPayload(started))]
        + rest.dispatched, rest.result)
  }

  /** `setOnDoingCustomDictCore`'s thunk: STARTED with the call's arguments,
      then, when the server call and the conversion of its result both
      succeed, SUCCESS committing the converted result and retiring nothing;
      when either throws, FAILED with the arguments and a rethrow. As in
      `Execute`, `Err` from `toDict` stands for a conversion that throws. */
  function RunCustom<T, A, R>(prefix: string, name: string, args: A, server: ServerResult<R>,
                              toDict: R -> ServerResult<Dict<T>>)
    : (run: Run<T, A, R>)
    ensures |run.dispatched| == 2
    ensures run.dispatched[0] == Action(Names.ComposeActionName(prefix, name, Some(Names.STARTED)), ArgsPayload(args))
    ensures server.Ok? && toDict(server.value).Ok? ==>
              && run.result == server
              && run.dispatched[1] == Action(Names.ComposeActionName(prefix, name, Some(Names.SUCCESS)),
                                             SuccessPayload(SuccessfulPayload(map[], toDict(server.value).value)))
    ensures server.Err? ==>
              && run.result == server
              && run.dispatched[1] == Action(Names.ComposeActionName(prefix, name, Some(Names.FAILED)), ArgsPayload(args))
    ensures server.Ok? && toDict(server.value).Err? ==>
              && run.result == Err(toDict(server.value).error)
              && run.dispatched[1] == Action(Names.ComposeActionName(prefix, name, Some(Names.FAILED)), ArgsPayload(args))
  {
    var startedAction := MakePayloadedAction(Names.ComposeActionName(prefix, name, Some(Names.STARTED)), ArgsPayload(args));
    var failedAction := MakePayloadedAction(Names.ComposeActionName(prefix, name, Some(Names.FAILED)), ArgsPayload(args));
    match server
    case Ok(v) =>
      (match toDict(v)
       case Ok(d) =>
         Run([startedAction,
              MakePayloadedAction(Names.ComposeActionName(prefix, name, Some(Names.SUCCESS)),
                                  SuccessPayload(SuccessfulPayload(map[], d)))], server)
       case Err(e) => Run([startedAction, failedAction], Err(e)))
    case Err(e) => Run([startedAction, failedAction], Err(e))
  }

  /** The result conversions of the custom operations: a list or an item
      under the indexer's identifiers, as values or as delete markers. */
  function CustomListDict<T>(list: seq<T>, indexer: T -> string): (d: Dict<T>)
    ensures d == ListCommittedDict(Names.Add, list, indexer)
  {
    ConvertListToDict(list, IndexedIds(list, indexer))
  }

  function CustomDeletedListDict<T>(list: seq<T>, indexer: T -> string): (d: Dict<T>)
    ensures d == ListCommittedDict(Names.Delete, list, indexer)
  {
    GetNullDict(ConvertListToDict(list, IndexedIds(list, indexer)))
  }

  function CustomItemDict<T>(item: T, indexer: T -> string): (d: Dict<T>)
    ensures d == ItemCommittedDict(Names.Add, item, indexer)
  {
    map[indexer(item) := Some(item)]
  }

  function CustomDeletedItemDict<T>(item: T, indexer: T -> string): (d: Dict<T>)
    ensures d == ItemCommittedDict(Names.Delete, item, indexer)
  {
    map[indexer(item) := None]
  }

  /** The STARTED epic: the action's payload, the pending entries, is
      forwarded to `SET_TEMP_DICT`. */
  function StartedEpic<T, A>(prefix: string, payload: CachePayload<T, A>): (a: Action<CachePayload<T, A>>)
    ensures a.actionType == Names.FixedType(prefix, Names.SetTemp) && a.payload == payload
  {
    MakePayloadedAction(Names.FixedType(prefix, Names.SetTemp), payload)
  }

  /** The SUCCESS epic: the success payload is forwarded, as is, to
      `SET_SYNCED_DICT_WITH_CLEAR_TEMP`. */
  function SuccessfulEpic<T, A>(prefix: string, payload: CachePayload<T, A>): (a: Action<CachePayload<T, A>>)
    ensures a.actionType == Names.FixedType(prefix, Names.SetSyncedWithClearTemp) && a.payload == payload
  {
    MakePayloadedAction(Names.FixedType(prefix, Names.SetSyncedWithClearTemp), payload)
  }

  /** The FAILED epic: the keys of the cancelled entries, in `Object.keys`
      order, are cleared from the temporary dictionary. */
  function FailedEpic<T, A>(prefix: string, payload: CachePayload<T, A>, keyOrder: seq<string>): (a: Action<CachePayload<T, A>>)
    requires payload.DictPayload? && IsEnumeration(keyOrder, payload.dict.Keys)
    ensures a.actionType == Names.FixedType(prefix, Names.ClearTemp)
    ensures a.payload.KeysPayload? && SetOf(a.payload.keys) == payload.dict.Keys
  {
    MakePayloadedAction(Names.FixedType(prefix, Names.ClearTemp), KeysPayload(keyOrder))
  }

  /** The CLEAR_BOTH_DICT epic: the same clear, on each dictionary. */
  function ClearBothEpic<T, A>(prefix: string, payload: CachePayload<T, A>): (r: seq<Action<CachePayload<T, A>>>)
    ensures |r| == 2 && r[0].payload == payload && r[1].payload == payload
    ensures r[0].actionType == Names.FixedType(prefix, Names.ClearTemp)
    ensures r[1].actionType == Names.FixedType(prefix, Names.ClearSynced)
  {
    [MakePayloadedAction(Names.FixedType(prefix, Names.ClearTemp), payload),
     MakePayloadedAction(Names.FixedType(prefix, Names.ClearSynced), payload)]
  }

  /** STARTED followed by FAILED, through the translations: exactly the
      started keys leave the temporary dictionary, whatever it held before,
      and the synced dictionary never changes. */
  lemma StartedThenFailed<T>(s: CachedListState<T>, started: Dict<T>, keyOrder: seq<string>)
    requires IsEnumeration(keyOrder, started.Keys)
    ensures var r := ClearTempDict(SetTempDict(s, started), Some(keyOrder));
            r.syncedDict == s.syncedDict && r.tempDict == s.tempDict - started.Keys
  {
    var r := ClearTempDict(SetTempDict(s, started), Some(keyOrder));
    assert r.tempDict == s.tempDict - started.Keys;
  }

  /** STARTED followed by SUCCESS, through the translations: the started and
      the committed keys leave the temporary dictionary, and the synced
      dictionary takes the committed entries, without delete markers. */
  lemma StartedThenSucceeded<T>(s: CachedListState<T>, started: Dict<T>, committed: Dict<T>)
    ensures var r := SetSyncedDictWithClearTemp(SetTempDict(s, started), SuccessfulPayload(started, committed));
            && r.tempDict == s.tempDict - started.Keys - committed.Keys
            && r.syncedDict == Prune(s.syncedDict + committed)
  {
    var r := SetSyncedDictWithClearTemp(SetTempDict(s, started), SuccessfulPayload(started, committed));
    assert r.tempDict == s.tempDict - started.Keys - committed.Keys;
  }

  /** While an operation is pending, the merged view shows its entries. */
  lemma StartedShowsPending<T>(s: CachedListState<T>, started: Dict<T>)
    ensures var v := ModifiedCachedDict(SetTempDict(s, started));
            forall k :: k in started ==> k in v && v[k] == started[k]
  {
  }

  /** After SUCCESS, the merged view shows exactly the server's answer on
      every committed key: its value, or nothing for a committed deletion. */
  lemma SucceededShowsCommitted<T>(s: CachedListState<T>, payload: SuccessfulPayload<T>)
    ensures var v := ModifiedCachedDict(SetSyncedDictWithClearTemp(s, payload));
            forall k :: k in payload.committedSyncedDict ==>
              (payload.committedSyncedDict[k].Some? ==> k in v && v[k] == payload.committedSyncedDict[k]) &&
              (payload.committedSyncedDict[k].None? ==> k !in v)
  {
  }
}
