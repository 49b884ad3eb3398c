/**
 Finalizing the pending dictionary: its keys are split into additions (a
 value for a key the synced dictionary lacks), updates (a value for a key it
 has) and deletions (a delete marker for a key holding a synced value); each
 group goes to the server as one list operation when a list handler is
 registered, or as one item operation per key when only an item handler is.
 Each planned operation then settles by SUCCESS or FAILED. The settlement
 below is what the SUCCESS and FAILED epics would make of those actions if
 they were wired into the store; as the registry is written, the epics are
 dropped and both actions leave the state unchanged (see
 `ListGenerator.LifecycleTypesReduceToItself`).
 */
module Finalize {
  import opened Common
  import opened CacheState
  import opened CacheReducers
  import opened ActionNames

  /** Where a group's values come from: the pending values for additions
      and updates, the synced values being deleted for deletions. */
  function Source<T>(op: Op, s: CachedListState<T>): Dict<T> {
    if op == Delete then s.syncedDict else s.tempDict
  }

  /** The group a pending key belongs to, if any. A group key always holds a
      value in its group's source. */
  predicate InGroup<T>(op: Op, s: CachedListState<T>, k: string)
    ensures InGroup(op, s, k) ==> k in Source(op, s) && Source(op, s)[k].Some?
  {
    k in s.tempDict &&
    match op
    case Add => s.tempDict[k].Some? && k !in s.syncedDict
    case Update => s.tempDict[k].Some? && k in s.syncedDict
    case Delete => s.tempDict[k].None? && k in s.syncedDict && s.syncedDict[k].Some?
  }

  /** Every listed key belongs to the group. */
  predicate AllInGroup<T>(op: Op, s: CachedListState<T>, keys: seq<string>) {
    forall i :: 0 <= i < |keys| ==> InGroup(op, s, keys[i])
  }

  /** The three groups are pairwise disjoint; every pending value is an
      addition or an update; a delete marker is a deletion exactly when the
      key holds a synced value, and otherwise belongs to no group. */
  lemma GroupsPartitionPendingKeys<T>(s: CachedListState<T>, k: string)
    ensures !(InGroup(Add, s, k) && InGroup(Update, s, k))
    ensures !(InGroup(Add, s, k) && InGroup(Delete, s, k))
    ensures !(InGroup(Update, s, k) && InGroup(Delete, s, k))
    ensures k in s.tempDict && s.tempDict[k].Some? ==> InGroup(Add, s, k) || InGroup(Update, s, k)
    ensures k in s.tempDict && s.tempDict[k].None? ==>
              (InGroup(Delete, s, k) <==> k in s.syncedDict && s.syncedDict[k].Some?)
    ensures k in s.tempDict && s.tempDict[k].None? && !(k in s.syncedDict && s.syncedDict[k].Some?) ==>
              !InGroup(Add, s, k) && !InGroup(Update, s, k) && !InGroup(Delete, s, k)
  {
  }

  /** The keys of a group, in the order the pending keys are listed. */
  function GroupKeys<T>(op: Op, s: CachedListState<T>, order: seq<string>): (ks: seq<string>)
    ensures forall k :: k in ks <==> k in order && InGroup(op, s, k)
    ensures AllInGroup(op, s, ks)
    ensures NoDuplicates(order) ==> NoDuplicates(ks)
    decreases |order|
  {
    if |order| == 0 then []
    else
      var rest := GroupKeys(op, s, order[1..]);
      if InGroup(op, s, order[0]) then
        assert NoDuplicates(order) ==> order[0] !in order[1..];
        [order[0]] + rest
      else rest
  }

  /** `toAddList` and its kin: the source values of the group's keys. */
  function GroupList<T>(op: Op, s: CachedListState<T>, keys: seq<string>): (r: seq<T>)
    requires AllInGroup(op, s, keys)
    ensures |r| == |keys|
    ensures forall i :: 0 <= i < |keys| ==> Source(op, s)[keys[i]] == Some(r[i])
  {
    seq(|keys|, i requires 0 <= i < |keys| => Source(op, s)[keys[i]].value)
  }

  /** One operation of the plan: its kind, the items sent to the server and
      the pending entries its SUCCESS or FAILED payload carries. */
  datatype PlannedOp<T> = PlannedOp(op: Op, granularity: Granularity, items: seq<T>, started: Dict<T>)

  /** The operations finalizing one group produces: one list operation when
      a list handler is registered (even for an empty group), else one item
      operation per key when an item handler is, else none. */
  function PlanGroup<T>(op: Op, s: CachedListState<T>, keys: seq<string>, registered: set<(Op, Granularity)>)
    : (plan: seq<PlannedOp<T>>)
    requires AllInGroup(op, s, keys)
    ensures forall i :: 0 <= i < |plan| ==> plan[i].op == op
    ensures (op, List) in registered ==>
              && |plan| == 1 && plan[0].granularity == List
              && plan[0].items == GroupList(op, s, keys)
              && plan[0].started.Keys == SetOf(keys)
              && forall k :: k in plan[0].started ==> plan[0].started[k] == Source(op, s)[k]
    ensures (op, List) !in registered && (op, Item) in registered ==>
              && |plan| == |keys|
              && forall i :: 0 <= i < |keys| ==>
                   && plan[i].granularity == Item
                   && plan[i].started == map[keys[i] := Source(op, s)[keys[i]]]
                   && plan[i].items == [Source(op, s)[keys[i]].value]
    ensures (op, List) !in registered && (op, Item) !in registered ==> plan == []
  {
    var source := Source(op, s);
    if (op, List) in registered then
      var dict := ToSelectedDictionary(keys, source);
      assert dict.Keys == SetOf(keys) by {
        forall k | k in keys ensures k in dict {
          var i :| 0 <= i < |keys| && keys[i] == k;
          assert InGroup(op, s, keys[i]);
        }
      }
      [PlannedOp(op, List, GroupList(op, s, keys), dict)]
    else if (op, Item) in registered then
      seq(|keys|, i requires 0 <= i < |keys| =>
        PlannedOp(op, Item, [source[keys[i]].value], map[keys[i] := source[keys[i]]]))
    else []
  }

  /** The plan for the whole pending dictionary: additions, then updates,
      then deletions. A pending key is planned exactly when it belongs to
      the group of an operation some server function is registered for. */
  function FinalizePlan<T>(s: CachedListState<T>, order: seq<string>, registered: set<(Op, Granularity)>)
    : (plan: seq<PlannedOp<T>>)
    requires IsEnumeration(order, s.tempDict.Keys)
    ensures plan == PlanGroup(Add, s, GroupKeys(Add, s, order), registered)
                    + PlanGroup(Update, s, GroupKeys(Update, s, order), registered)
                    + PlanGroup(Delete, s, GroupKeys(Delete, s, order), registered)
    ensures forall k :: Planned(plan, k) <==>
              || (InGroup(Add, s, k) && HasServerFunction(Add, registered))
              || (InGroup(Update, s, k) && HasServerFunction(Update, registered))
              || (InGroup(Delete, s, k) && HasServerFunction(Delete, registered))
  {
    var adds := PlanGroup(Add, s, GroupKeys(Add, s, order), registered);
    var updates := PlanGroup(Update, s, GroupKeys(Update, s, order), registered);
    var deletes := PlanGroup(Delete, s, GroupKeys(Delete, s, order), registered);
    PlannedIffServedGroup(s, order, registered);
    adds + updates + deletes
  }

  /** The three groups' operations together stand for exactly the grouped
      keys whose operation has a server function. */
  lemma PlannedIffServedGroup<T>(s: CachedListState<T>, order: seq<string>, registered: set<(Op, Granularity)>)
    requires IsEnumeration(order, s.tempDict.Keys)
    ensures var plan := PlanGroup(Add, s, GroupKeys(Add, s, order), registered)
                        + PlanGroup(Update, s, GroupKeys(Update, s, order), registered)
                        + PlanGroup(Delete, s, GroupKeys(Delete, s, order), registered);
            forall k :: Planned(plan, k) <==>
              || (InGroup(Add, s, k) && HasServerFunction(Add, registered))
              || (InGroup(Update, s, k) && HasServerFunction(Update, registered))
              || (InGroup(Delete, s, k) && HasServerFunction(Delete, registered))
  {
    var adds := PlanGroup(Add, s, GroupKeys(Add, s, order), registered);
    var updates := PlanGroup(Update, s, GroupKeys(Update, s, order), registered);
    var deletes := PlanGroup(Delete, s, GroupKeys(Delete, s, order), registered);
    forall k
      ensures Planned(adds + updates + deletes, k) <==>
              || (InGroup(Add, s, k) && HasServerFunction(Add, registered))
              || (InGroup(Update, s, k) && HasServerFunction(Update, registered))
              || (InGroup(Delete, s, k) && HasServerFunction(Delete, registered))
    {
      PlanGroupCoversGroup(Add, s, GroupKeys(Add, s, order), registered, k);
      PlanGroupCoversGroup(Update, s, GroupKeys(Update, s, order), registered, k);
      PlanGroupCoversGroup(Delete, s, GroupKeys(Delete, s, order), registered, k);
      PlannedAppend(adds, updates, k);
      PlannedAppend(adds + updates, deletes, k);
    }
  }

  /** A list or an item server function is registered for the operation. */
  predicate HasServerFunction(op: Op, registered: set<(Op, Granularity)>) {
    (op, List) in registered || (op, Item) in registered
  }

  /** The keys a plan's operations stand for. */
  predicate Planned<T>(plan: seq<PlannedOp<T>>, k: string) {
    exists i :: 0 <= i < |plan| && k in plan[i].started
  }

  lemma PlannedAppend<T>(a: seq<PlannedOp<T>>, b: seq<PlannedOp<T>>, k: string)
    ensures Planned(a + b, k) <==> Planned(a, k) || Planned(b, k)
  {
    if Planned(a + b, k) {
      var i :| 0 <= i < |a + b| && k in (a + b)[i].started;
      if i >= |a| {
        assert b[i - |a|] == (a + b)[i];
      }
    }
    if Planned(a, k) {
      var i :| 0 <= i < |a| && k in a[i].started;
      assert (a + b)[i] == a[i];
    }
    if Planned(b, k) {
      var i :| 0 <= i < |b| && k in b[i].started;
      assert (a + b)[|a| + i] == b[i];
    }
  }

  /** A group's operations stand for exactly the group's keys when a
      server function for the operation is registered, and for none
      otherwise. */
  lemma PlanGroupCoversGroup<T>(op: Op, s: CachedListState<T>, keys: seq<string>, registered: set<(Op, Granularity)>, k: string)
    requires AllInGroup(op, s, keys)
    ensures Planned(PlanGroup(op, s, keys, registered), k) <==> k in keys && HasServerFunction(op, registered)
  {
    var plan := PlanGroup(op, s, keys, registered);
    if (op, List) !in registered && (op, Item) in registered && k in keys {
      var i :| 0 <= i < |keys| && keys[i] == k;
      assert k in plan[i].started;
    }
  }

  /** With a handler of each kind registered, the plan stands for exactly
      the pending keys that belong to a group. */
  lemma FinalizePlanCoversGroups<T>(s: CachedListState<T>, order: seq<string>, registered: set<(Op, Granularity)>, k: string)
    requires IsEnumeration(order, s.tempDict.Keys)
    requires forall op: Op :: HasServerFunction(op, registered)
    ensures Planned(FinalizePlan(s, order, registered), k) <==>
              InGroup(Add, s, k) || InGroup(Update, s, k) || InGroup(Delete, s, k)
  {
    assert HasServerFunction(Add, registered) && HasServerFunction(Update, registered) && HasServerFunction(Delete, registered);
  }

  /** Every entry of every operation of the plan is a group key of that
      operation's kind, carrying its source value. */
  ghost predicate EntriesAgree<T>(plan: seq<PlannedOp<T>>, s: CachedListState<T>) {
    forall j, k :: 0 <= j < |plan| && k in plan[j].started ==>
      InGroup(plan[j].op, s, k) && plan[j].started[k] == Source(plan[j].op, s)[k]
  }

  lemma EntriesAgreeAppend<T>(a: seq<PlannedOp<T>>, b: seq<PlannedOp<T>>, s: CachedListState<T>)
    requires EntriesAgree(a, s) && EntriesAgree(b, s)
    ensures EntriesAgree(a + b, s)
  {
    forall j, k | 0 <= j < |a + b| && k in (a + b)[j].started
      ensures InGroup((a + b)[j].op, s, k) && (a + b)[j].started[k] == Source((a + b)[j].op, s)[k]
    {
      if j >= |a| {
        assert (a + b)[j] == b[j - |a|];
      }
    }
  }

  /** A group's operations carry group keys with their source values. */
  lemma PlanGroupEntriesAgree<T>(op: Op, s: CachedListState<T>, keys: seq<string>, registered: set<(Op, Granularity)>)
    requires AllInGroup(op, s, keys)
    ensures EntriesAgree(PlanGroup(op, s, keys, registered), s)
  {
    var plan := PlanGroup(op, s, keys, registered);
    forall j, k | 0 <= j < |plan| && k in plan[j].started
      ensures InGroup(plan[j].op, s, k) && plan[j].started[k] == Source(plan[j].op, s)[k]
    {
      if (op, List) in registered {
        assert k in SetOf(keys);
        var i :| 0 <= i < |keys| && keys[i] == k;
      }
    }
  }

  /** The planned operations' entries agree with the state: additions and
      updates carry the pending value, deletions the synced value. */
  lemma FinalizePlanEntries<T>(s: CachedListState<T>, order: seq<string>, registered: set<(Op, Granularity)>)
    requires IsEnumeration(order, s.tempDict.Keys)
    ensures EntriesAgree(FinalizePlan(s, order, registered), s)
  {
    var addKeys, updateKeys, deleteKeys := GroupKeys(Add, s, order), GroupKeys(Update, s, order), GroupKeys(Delete, s, order);
    PlanGroupEntriesAgree(Add, s, addKeys, registered);
    PlanGroupEntriesAgree(Update, s, updateKeys, registered);
    PlanGroupEntriesAgree(Delete, s, deleteKeys, registered);
    EntriesAgreeAppend(PlanGroup(Add, s, addKeys, registered), PlanGroup(Update, s, updateKeys, registered), s);
    EntriesAgreeAppend(PlanGroup(Add, s, addKeys, registered) + PlanGroup(Update, s, updateKeys, registered),
                       PlanGroup(Delete, s, deleteKeys, registered), s);
  }

  /** How one planned operation ended: SUCCESS with the committed entries,
      or FAILED, whose epic would clear the started keys in `keyOrder`. */
  datatype Settlement<T> =
    | Succeeded(started: Dict<T>, committed: Dict<T>)
    | Cancelled(started: Dict<T>, keyOrder: seq<string>)

  predicate WellFormed<T>(st: Settlement<T>) {
    st.Cancelled? ==> IsEnumeration(st.keyOrder, st.started.Keys)
  }

  /** The dictionary action a settlement's epic would produce, applied. */
  function Settle<T>(s: CachedListState<T>, st: Settlement<T>): (r: CachedListState<T>)
    requires WellFormed(st)
    ensures r.tempDict.Keys <= s.tempDict.Keys - st.started.Keys
    ensures forall k :: k in r.tempDict ==> r.tempDict[k] == s.tempDict[k]
  {
    match st
    case Succeeded(started, committed) => SetSyncedDictWithClearTemp(s, SuccessfulPayload(started, committed))
    case Cancelled(started, keyOrder) => ClearTempDict(s, Some(keyOrder))
  }

  /** Settlements applied in the order they arrive. */
  function SettleAll<T>(s: CachedListState<T>, sts: seq<Settlement<T>>): (r: CachedListState<T>)
    requires forall i :: 0 <= i < |sts| ==> WellFormed(sts[i])
    ensures r.tempDict.Keys <= s.tempDict.Keys
    ensures forall i, k :: 0 <= i < |sts| && k in sts[i].started ==> k !in r.tempDict
    ensures forall k :: k in r.tempDict ==> r.tempDict[k] == s.tempDict[k]
    decreases |sts|
  {
    if |sts| == 0 then s
    else
      var first := Settle(s, sts[0]);
      var r := SettleAll(first, sts[1..]);
      assert forall i :: 1 <= i < |sts| ==> sts[i] == sts[1..][i - 1];
      r
  }

  /** Were the epics wired: once every planned operation has settled, in
      whatever order and whichever way, no key the plan stands for is still
      pending; the keys still pending are those in no group, and they keep
      their entries. */
  lemma FinalizeLeavesOnlyUngroupedKeys<T>(s: CachedListState<T>, order: seq<string>, registered: set<(Op, Granularity)>,
                                           sts: seq<Settlement<T>>)
    requires IsEnumeration(order, s.tempDict.Keys)
    requires forall op: Op :: HasServerFunction(op, registered)
    requires forall i :: 0 <= i < |sts| ==> WellFormed(sts[i])
    requires var plan := FinalizePlan(s, order, registered);
             forall j :: 0 <= j < |plan| ==> exists i :: 0 <= i < |sts| && sts[i].started == plan[j].started
    ensures var r := SettleAll(s, sts);
            forall k :: k in r.tempDict ==>
              r.tempDict[k] == s.tempDict[k] &&
              !InGroup(Add, s, k) && !InGroup(Update, s, k) && !InGroup(Delete, s, k)
  {
    var plan := FinalizePlan(s, order, registered);
    var r := SettleAll(s, sts);
    forall k | k in r.tempDict
      ensures !InGroup(Add, s, k) && !InGroup(Update, s, k) && !InGroup(Delete, s, k)
    {
      forall j | 0 <= j < |plan|
        ensures k !in plan[j].started
      {
        var i :| 0 <= i < |sts| && sts[i].started == plan[j].started;
      }
      FinalizePlanCoversGroups(s, order, registered, k);
    }
  }
}
