/**
 The dictionary reducers a list reducer package registers: merging pending
 entries, committing server results (dropping deleted entries), resetting
 and clearing either dictionary. Each is a total function from a state and a
 payload to the next state.
 */
module CacheReducers {
  import opened Common
  import opened CacheState
  import ActionNames

  /** A dictionary that holds no delete marker. */
  predicate NoNulls<T>(d: Dict<T>) {
    forall k :: k in d ==> d[k].Some?
  }

  /** Drops every entry whose value is null. */
  function Prune<T>(d: Dict<T>): (r: Dict<T>)
    ensures r.Keys == NonNullKeys(d)
    ensures NoNulls(r)
    ensures forall k :: k in r ==> r[k] == d[k]
  {
    map k | k in d && d[k].Some? :: d[k]
  }

  /** Deletes the listed keys one after another; listed keys that are
      absent are ignored. */
  function RemoveKeys<T>(d: Dict<T>, ids: seq<string>): (r: Dict<T>)
    ensures r.Keys == d.Keys - SetOf(ids)
    ensures forall k :: k in r ==> r[k] == d[k]
    decreases |ids|
  {
    if |ids| == 0 then d
    else
      assert forall k :: k in ids <==> k == ids[0] || k in ids[1..];
      RemoveKeys(d - {ids[0]}, ids[1..])
  }

  /** `SET_TEMP_DICT`: the payload's entries, delete markers included,
      override the pending ones. */
  function SetTempDict<T>(s: CachedListState<T>, payload: Dict<T>): (r: CachedListState<T>)
    ensures r.syncedDict == s.syncedDict
    ensures r.tempDict.Keys == s.tempDict.Keys + payload.Keys
    ensures forall k :: k in payload ==> r.tempDict[k] == payload[k]
    ensures forall k :: k in s.tempDict && k !in payload ==> r.tempDict[k] == s.tempDict[k]
  {
    s.(tempDict := s.tempDict + payload)
  }

  /** `SET_SYNCED_DICT`: the payload's entries override the synced ones, then
      every null entry is dropped. */
  function SetSyncedDict<T>(s: CachedListState<T>, payload: Dict<T>): (r: CachedListState<T>)
    ensures r.tempDict == s.tempDict
    ensures NoNulls(r.syncedDict)
    ensures forall k :: k in r.syncedDict <==>
              (k in payload && payload[k].Some?) ||
              (k !in payload && k in s.syncedDict && s.syncedDict[k].Some?)
    ensures forall k :: k in r.syncedDict && k in payload ==> r.syncedDict[k] == payload[k]
    ensures forall k :: k in r.syncedDict && k !in payload ==> r.syncedDict[k] == s.syncedDict[k]
  {
    s.(syncedDict := Prune(s.syncedDict + payload))
  }

  /** `SET_SYNCED_DICT_WITH_CLEAR_TEMP`: commits like `SET_SYNCED_DICT` and
      retires from the pending dictionary every key of the reverted and of
      the committed dictionary. */
  function SetSyncedDictWithClearTemp<T>(s: CachedListState<T>, payload: SuccessfulPayload<T>): (r: CachedListState<T>)
    ensures NoNulls(r.syncedDict)
    ensures r.tempDict.Keys ==
              s.tempDict.Keys - payload.revertedTempDict.Keys - payload.committedSyncedDict.Keys
    ensures forall k :: k in r.tempDict ==> r.tempDict[k] == s.tempDict[k]
    ensures r.syncedDict == SetSyncedDict(s, payload.committedSyncedDict).syncedDict
  {
    var cleared := payload.revertedTempDict.Keys + payload.committedSyncedDict.Keys;
    CachedListState(Prune(s.syncedDict + payload.committedSyncedDict), s.tempDict - cleared)
  }

  /** `APPEND_TEMP_ITEM`: one pending entry set (a null value marks a
      deletion). */
  function AppendTempItem<T>(s: CachedListState<T>, key: string, value: Option<T>): (r: CachedListState<T>)
    ensures r.syncedDict == s.syncedDict
    ensures r.tempDict.Keys == s.tempDict.Keys + {key}
    ensures r.tempDict[key] == value
    ensures forall k :: k in s.tempDict && k != key ==> r.tempDict[k] == s.tempDict[k]
  {
    s.(tempDict := s.tempDict[key := value])
  }

  /** `RESET_TEMP_DICT`: the payload becomes the pending dictionary. */
  function ResetTempDict<T>(s: CachedListState<T>, payload: Dict<T>): (r: CachedListState<T>)
    ensures r.syncedDict == s.syncedDict && r.tempDict == payload
  {
    s.(tempDict := payload)
  }

  /** `RESET_SYNCED_DICT`: the payload becomes the synced dictionary; an
      undefined payload (`None`) empties it. */
  function ResetSyncedDict<T>(s: CachedListState<T>, payload: Option<Dict<T>>): (r: CachedListState<T>)
    ensures r.tempDict == s.tempDict
    ensures payload.Some? ==> r.syncedDict == payload.value
    ensures payload.None? ==> r.syncedDict == map[]
  {
    s.(syncedDict := payload.GetOr(map[]))
  }

  /** `CLEAR_TEMP_DICT`: removes the listed keys, or every key when no list
      is given (an empty list is truthy and removes nothing). */
  function ClearTempDict<T>(s: CachedListState<T>, ids: Option<seq<string>>): (r: CachedListState<T>)
    ensures r.syncedDict == s.syncedDict
    ensures ids.None? ==> r.tempDict == map[]
    ensures ids.Some? ==> r.tempDict.Keys == s.tempDict.Keys - SetOf(ids.value)
    ensures forall k :: k in r.tempDict ==> r.tempDict[k] == s.tempDict[k]
  {
    match ids
    case None => s.(tempDict := map[])
    case Some(list) => s.(tempDict := RemoveKeys(s.tempDict, list))
  }

  /** `CLEAR_SYNCED_DICT`: as `CLEAR_TEMP_DICT`, on the synced dictionary. */
  function ClearSyncedDict<T>(s: CachedListState<T>, ids: Option<seq<string>>): (r: CachedListState<T>)
    ensures r.tempDict == s.tempDict
    ensures ids.None? ==> r.syncedDict == map[]
    ensures ids.Some? ==> r.syncedDict.Keys == s.syncedDict.Keys - SetOf(ids.value)
    ensures forall k :: k in r.syncedDict ==> r.syncedDict[k] == s.syncedDict[k]
  {
    match ids
    case None => s.(syncedDict := map[])
    case Some(list) => s.(syncedDict := RemoveKeys(s.syncedDict, list))
  }

  /** Appending one item is setting a one-entry dictionary. */
  lemma AppendTempItemIsSetTempDict<T>(s: CachedListState<T>, key: string, value: Option<T>)
    ensures AppendTempItem(s, key, value) == SetTempDict(s, map[key := value])
  {
  }

  /** Committing with a temp clear is clearing the retired keys and then
      committing. */
  lemma {:induction false} SetSyncedDictWithClearTempDecomposes<T>(s: CachedListState<T>, payload: SuccessfulPayload<T>, cleared: seq<string>)
    requires IsEnumeration(cleared, payload.revertedTempDict.Keys + payload.committedSyncedDict.Keys)
    ensures SetSyncedDictWithClearTemp(s, payload) ==
            SetSyncedDict(ClearTempDict(s, Some(cleared)), payload.committedSyncedDict)
  {
    var lhs := SetSyncedDictWithClearTemp(s, payload);
    var rhs := SetSyncedDict(ClearTempDict(s, Some(cleared)), payload.committedSyncedDict);
    assert lhs.tempDict == rhs.tempDict;
    assert lhs.syncedDict == rhs.syncedDict;
  }

  /** Committing the same success twice commits it once. */
  lemma SetSyncedDictWithClearTempIdempotent<T>(s: CachedListState<T>, payload: SuccessfulPayload<T>)
    ensures var once := SetSyncedDictWithClearTemp(s, payload);
            SetSyncedDictWithClearTemp(once, payload) == once
  {
    var once := SetSyncedDictWithClearTemp(s, payload);
    var twice := SetSyncedDictWithClearTemp(once, payload);
    assert twice.tempDict == once.tempDict;
    assert twice.syncedDict == once.syncedDict;
  }

  /** Setting the same synced entries twice sets them once. */
  lemma SetSyncedDictIdempotent<T>(s: CachedListState<T>, payload: Dict<T>)
    ensures var once := SetSyncedDict(s, payload);
            SetSyncedDict(once, payload) == once
  {
    var once := SetSyncedDict(s, payload);
    assert SetSyncedDict(once, payload).syncedDict == once.syncedDict;
  }

  /** Clearing the same keys twice clears them once. */
  lemma ClearTempDictIdempotent<T>(s: CachedListState<T>, ids: Option<seq<string>>)
    ensures var once := ClearTempDict(s, ids);
            ClearTempDict(once, ids) == once
  {
    var once := ClearTempDict(s, ids);
    assert ClearTempDict(once, ids).tempDict == once.tempDict;
  }

  /** What each payload shape carries. A handler given a payload of another
      shape leaves the state as it is. */
  datatype CachePayload<T, A> =
    | UndefinedPayload
    | DictPayload(dict: Dict<T>)
    | SuccessPayload(success: SuccessfulPayload<T>)
    | KeyValuePayload(key: string, value: Option<T>)
    | KeysPayload(keys: seq<string>)
    | ArgsPayload(args: A)

  /** The eight handlers the constructor registers. */
  datatype DictHandler =
    | SetTempHandler | SetSyncedHandler | SetSyncedWithClearTempHandler | AppendTempItemHandler
    | ResetTempHandler | ResetSyncedHandler | ClearTempHandler | ClearSyncedHandler

  /** The fixed action a handler is registered under. */
  function HandlerAction(h: DictHandler): (a: ActionNames.FixedAction)
    ensures a !in {ActionNames.AppendTempDict, ActionNames.ClearBoth, ActionNames.FinalizeTemp}
  {
    match h
    case SetTempHandler => ActionNames.SetTemp
    case SetSyncedHandler => ActionNames.SetSynced
    case SetSyncedWithClearTempHandler => ActionNames.SetSyncedWithClearTemp
    case AppendTempItemHandler => ActionNames.AppendTempItem
    case ResetTempHandler => ActionNames.ResetTemp
    case ResetSyncedHandler => ActionNames.ResetSynced
    case ClearTempHandler => ActionNames.ClearTemp
    case ClearSyncedHandler => ActionNames.ClearSynced
  }

  /** Runs a handler on a payload; an undefined payload reads as "no list"
      for the clearing handlers and as `{}` for `RESET_SYNCED_DICT`. */
  function ApplyHandler<T, A>(h: DictHandler, s: CachedListState<T>, p: CachePayload<T, A>): CachedListState<T> {
    match (h, p)
    case (SetTempHandler, DictPayload(d)) => SetTempDict(s, d)
    case (SetSyncedHandler, DictPayload(d)) => SetSyncedDict(s, d)
    case (SetSyncedWithClearTempHandler, SuccessPayload(sp)) => SetSyncedDictWithClearTemp(s, sp)
    case (AppendTempItemHandler, KeyValuePayload(k, v)) => AppendTempItem(s, k, v)
    case (ResetTempHandler, DictPayload(d)) => ResetTempDict(s, d)
    case (ResetSyncedHandler, DictPayload(d)) => ResetSyncedDict(s, Some(d))
    case (ResetSyncedHandler, UndefinedPayload) => ResetSyncedDict(s, None)
    case (ClearTempHandler, KeysPayload(ids)) => ClearTempDict(s, Some(ids))
    case (ClearTempHandler, UndefinedPayload) => ClearTempDict(s, None)
    case (ClearSyncedHandler, KeysPayload(ids)) => ClearSyncedDict(s, Some(ids))
    case (ClearSyncedHandler, UndefinedPayload) => ClearSyncedDict(s, None)
    case _ => s
  }

  /** Every handler touches one dictionary only, except the committing one
      that also retires pending entries; and only `RESET_SYNCED_DICT` can
      bring a delete marker into a synced dictionary that holds none. */
  lemma HandlersTouchOneDictionary<T, A>(h: DictHandler, s: CachedListState<T>, p: CachePayload<T, A>)
    ensures h in {SetTempHandler, AppendTempItemHandler, ResetTempHandler, ClearTempHandler} ==>
              ApplyHandler(h, s, p).syncedDict == s.syncedDict
    ensures h in {SetSyncedHandler, ResetSyncedHandler, ClearSyncedHandler} ==>
              ApplyHandler(h, s, p).tempDict == s.tempDict
    ensures h != ResetSyncedHandler && NoNulls(s.syncedDict) ==> NoNulls(ApplyHandler(h, s, p).syncedDict)
  {
  }
}
