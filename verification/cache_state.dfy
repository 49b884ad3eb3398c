/**
 The state of one optimistically cached collection and its read-only
 projections. A dictionary maps an identifier to a value or to `None`
 (JavaScript `null`, a delete marker); an absent key means "no
 information". Where a result depends on the order in which `Object.keys`
 lists a dictionary, that order is an explicit `order` argument.
 */
module CacheState {
  import opened Common

  type Dict<T> = map<string, Option<T>>

  /** `syncedDict`: the last server-confirmed values; `tempDict`: pending
      local intent (an addition, an edit, or `None` for a deletion). */
  datatype CachedListState<T> = CachedListState(syncedDict: Dict<T>, tempDict: Dict<T>)

  /** What a completed server operation reports: the pending entries to
      retire and the entries to commit (`None` commits a deletion). */
  datatype SuccessfulPayload<T> = SuccessfulPayload(revertedTempDict: Dict<T>, committedSyncedDict: Dict<T>)

  function DefaultCachedListState<T>(): (s: CachedListState<T>)
    ensures s.syncedDict == map[] && s.tempDict == map[]
  {
    CachedListState(map[], map[])
  }

  /** The keys that hold a non-null value. */
  function NonNullKeys<T>(d: Dict<T>): set<string> {
    set k | k in d && d[k].Some?
  }

  /** The keys of `order` whose value is not null, in order. */
  function CleanKeys<T>(d: Dict<T>, order: seq<string>): (ks: seq<string>)
    requires forall k :: k in order ==> k in d
    ensures forall k :: k in ks <==> k in order && d[k].Some?
    ensures NoDuplicates(order) ==> NoDuplicates(ks)
    ensures IsSubsequence(ks, order)
    decreases |order|
  {
    if |order| == 0 then []
    else
      var rest := CleanKeys(d, order[1..]);
      if d[order[0]].Some? then
        assert NoDuplicates(order) ==> order[0] !in order[1..];
        [order[0]] + rest
      else rest
  }

  /** `toCleanList`: the clean keys mapped to their values. */
  function ToCleanList<T(!new)>(d: Dict<T>, order: seq<string>): (r: seq<T>)
    requires forall k :: k in order ==> k in d
    ensures |r| == |CleanKeys(d, order)|
    ensures forall i :: 0 <= i < |r| ==> d[CleanKeys(d, order)[i]] == Some(r[i])
  {
    var ks := CleanKeys(d, order);
    seq(|ks|, i requires 0 <= i < |ks| => d[ks[i]].value)
  }

  /** A value is listed iff some listed key holds it: null keys contribute
      nothing. */
  lemma ToCleanListMembers<T(!new)>(d: Dict<T>, order: seq<string>)
    requires forall k :: k in order ==> k in d
    ensures forall v :: v in ToCleanList(d, order) <==> exists k :: k in order && d[k] == Some(v)
  {
    var ks := CleanKeys(d, order);
    var r := ToCleanList(d, order);
    forall v | v in r
      ensures exists k :: k in order && d[k] == Some(v)
    {
      var i :| 0 <= i < |r| && r[i] == v;
      assert ks[i] in ks;
    }
    forall v | exists k :: k in order && d[k] == Some(v)
      ensures v in r
    {
      var k :| k in order && d[k] == Some(v);
      assert k in ks;
      var i :| 0 <= i < |ks| && ks[i] == k;
      assert r[i] == v;
    }
  }

  /** Over a key enumeration, the listing holds one value per non-null key:
      the i-th value belongs to the i-th key of an enumeration of the
      non-null keys. */
  lemma ToCleanListOnePerKey<T(!new)>(d: Dict<T>, order: seq<string>)
    requires IsEnumeration(order, d.Keys)
    ensures var ks := CleanKeys(d, order);
            && IsEnumeration(ks, NonNullKeys(d))
            && |ToCleanList(d, order)| == |ks|
            && forall i :: 0 <= i < |ks| ==> d[ks[i]] == Some(ToCleanList(d, order)[i])
  {
  }

  /** Filtering two parts of a key listing filters each part. */
  lemma {:induction false} CleanKeysAppend<T>(d: Dict<T>, a: seq<string>, b: seq<string>)
    requires forall k :: k in a ==> k in d
    requires forall k :: k in b ==> k in d
    ensures CleanKeys(d, a + b) == CleanKeys(d, a) + CleanKeys(d, b)
    decreases |a|
  {
    if |a| == 0 {
      assert a + b == b;
    } else {
      assert (a + b)[1..] == a[1..] + b;
      CleanKeysAppend(d, a[1..], b);
    }
  }

  /** Listing the keys in two parts lists the values in the same two parts. */
  lemma ToCleanListAppend<T(!new)>(d: Dict<T>, a: seq<string>, b: seq<string>)
    requires forall k :: k in a ==> k in d
    requires forall k :: k in b ==> k in d
    ensures ToCleanList(d, a + b) == ToCleanList(d, a) + ToCleanList(d, b)
  {
    CleanKeysAppend(d, a, b);
  }

  /** Dropping one position of a duplicate-free listing drops exactly that
      element. */
  lemma RemoveAt(b: seq<string>, j: nat)
    requires NoDuplicates(b) && j < |b|
    ensures NoDuplicates(b[..j] + b[j + 1..])
    ensures SetOf(b[..j] + b[j + 1..]) == SetOf(b) - {b[j]}
  {
    var b' := b[..j] + b[j + 1..];
    forall p, q | 0 <= p < q < |b'|
      ensures b'[p] != b'[q]
    {
      var p' := if p < j then p else p + 1;
      var q' := if q < j then q else q + 1;
      assert b'[p] == b[p'] && b'[q] == b[q'];
    }
    forall k | k in b'
      ensures k in b && k != b[j]
    {
      var m :| 0 <= m < |b'| && b'[m] == k;
      var m' := if m < j then m else m + 1;
      assert b[m'] == k && m' != j;
    }
    forall k | k in b && k != b[j]
      ensures k in b'
    {
      var m :| 0 <= m < |b| && b[m] == k;
      if m < j { assert b'[m] == k; } else { assert b'[m - 1] == k; }
    }
  }

  /** The clean values of a listing are those of one position plus those of
      the rest. */
  lemma CleanListSplitAt<T(!new)>(d: Dict<T>, b: seq<string>, j: nat)
    requires forall k :: k in b ==> k in d
    requires j < |b|
    ensures forall k :: k in b[..j] + b[j + 1..] ==> k in d
    ensures multiset(ToCleanList(d, b)) ==
            multiset(ToCleanList(d, [b[j]])) + multiset(ToCleanList(d, b[..j] + b[j + 1..]))
  {
    assert b == (b[..j] + [b[j]]) + b[j + 1..];
    ToCleanListAppend(d, b[..j] + [b[j]], b[j + 1..]);
    ToCleanListAppend(d, b[..j], [b[j]]);
    ToCleanListAppend(d, b[..j], b[j + 1..]);
  }

  /** The multiset of clean values does not depend on the key order. */
  lemma {:induction false} ToCleanListOrderIndependent<T(!new)>(d: Dict<T>, a: seq<string>, b: seq<string>)
    requires forall k :: k in a ==> k in d
    requires forall k :: k in b ==> k in d
    requires NoDuplicates(a) && NoDuplicates(b)
    requires SetOf(a) == SetOf(b)
    ensures multiset(ToCleanList(d, a)) == multiset(ToCleanList(d, b))
    decreases |a|
  {
    if |a| == 0 {
      assert SetOf(b) == {};
    } else {
      var x := a[0];
      assert x in SetOf(b);
      var j :| 0 <= j < |b| && b[j] == x;
      var a', b' := a[1..], b[..j] + b[j + 1..];
      RemoveAt(b, j);
      RemoveAt(a, 0);
      assert a[..0] + a[1..] == a';
      assert SetOf(a') == SetOf(b');
      ToCleanListOrderIndependent(d, a', b');
      CleanListSplitAt(d, b, j);
      CleanListSplitAt(d, a, 0);
    }
  }

  /** `getModifiedCachedDict`: the synced dictionary overridden by the
      temporary one. */
  function ModifiedCachedDict<T>(state: CachedListState<T>): (r: Dict<T>)
    ensures r.Keys == state.syncedDict.Keys + state.tempDict.Keys
    ensures forall k :: k in state.tempDict ==> r[k] == state.tempDict[k]
    ensures forall k :: k in state.syncedDict && k !in state.tempDict ==> r[k] == state.syncedDict[k]
  {
    state.syncedDict + state.tempDict
  }

  /** `getModifiedCachedList`: a value is listed iff it is the pending value
      of some key, or the synced value of a key with no pending entry. */
  function ModifiedCachedList<T(!new)>(state: CachedListState<T>, order: seq<string>): (r: seq<T>)
    requires IsEnumeration(order, state.syncedDict.Keys + state.tempDict.Keys)
    ensures forall v :: v in r <==>
              (exists k :: k in state.tempDict && state.tempDict[k] == Some(v)) ||
              (exists k :: k in state.syncedDict && k !in state.tempDict && state.syncedDict[k] == Some(v))
  {
    var merged := ModifiedCachedDict(state);
    ToCleanListMembers(merged, order);
    ToCleanList(merged, order)
  }

  /** `getSyncedCachedList`: the non-null synced values. */
  function SyncedCachedList<T(!new)>(state: CachedListState<T>, order: seq<string>): (r: seq<T>)
    requires IsEnumeration(order, state.syncedDict.Keys)
    ensures forall v :: v in r <==> exists k :: k in state.syncedDict && state.syncedDict[k] == Some(v)
  {
    ToCleanListMembers(state.syncedDict, order);
    ToCleanList(state.syncedDict, order)
  }

  /** `getTempCachedList`: the non-null pending values. */
  function TempCachedList<T(!new)>(state: CachedListState<T>, order: seq<string>): (r: seq<T>)
    requires IsEnumeration(order, state.tempDict.Keys)
    ensures forall v :: v in r <==> exists k :: k in state.tempDict && state.tempDict[k] == Some(v)
  {
    ToCleanListMembers(state.tempDict, order);
    ToCleanList(state.tempDict, order)
  }

  /** `hasUnsavedItems`: some entry, even a delete marker, is pending. */
  function HasUnsavedItems<T>(state: CachedListState<T>): (b: bool)
    ensures b <==> state.tempDict != map[]
  {
    assert state.tempDict == map[] <==> |state.tempDict| == 0 by {
      if |state.tempDict| != 0 {
        var k :| k in state.tempDict;
      }
    }
    |state.tempDict| > 0
  }

  /** `toSelectedDictionary`: the requested keys that hold a non-null value,
      with their values. Values are objects, hence truthy, so JavaScript's
      falsiness test rejects exactly the absent and null entries. */
  function ToSelectedDictionary<T>(keys: seq<string>, d: Dict<T>): (r: Dict<T>)
    ensures r.Keys == set k | k in keys && k in d && d[k].Some?
    ensures forall k :: k in r ==> r[k] == d[k]
    decreases |keys|
  {
    if |keys| == 0 then map[]
    else
      var rest := ToSelectedDictionary(keys[1..], d);
      assert forall k :: k in keys <==> k == keys[0] || k in keys[1..];
      if keys[0] in d && d[keys[0]].Some? then rest[keys[0] := d[keys[0]]] else rest
  }

  /** `getNullDict`: the same keys, every value turned into a delete marker. */
  function GetNullDict<T>(d: Dict<T>): (r: Dict<T>)
    ensures r.Keys == d.Keys
    ensures forall k :: k in r ==> r[k] == None
  {
    map k | k in d :: None
  }

  /** `convertItemToDict`: a one-entry dictionary under the item's id. */
  function ConvertItemToDict<T>(item: T, id: string): (r: Dict<T>)
    ensures r.Keys == {id} && r[id] == Some(item)
  {
    map[id := Some(item)]
  }

  /** The position of the last occurrence of `k` in `ids`. */
  function LastIndexOf(ids: seq<string>, k: string): (i: nat)
    requires k in ids
    ensures i < |ids| && ids[i] == k
    ensures forall j :: i < j < |ids| ==> ids[j] != k
  {
    if ids[|ids| - 1] == k then |ids| - 1
    else
      assert k in ids[..|ids| - 1] by {
        var m :| 0 <= m < |ids| && ids[m] == k;
        assert ids[..|ids| - 1][m] == k;
      }
      LastIndexOf(ids[..|ids| - 1], k)
  }

  /** `convertListToDict`: each item filed under its id, `ids[i]` being the
      id generated for `items[i]`; when ids repeat, the later item wins. */
  function ConvertListToDict<T>(items: seq<T>, ids: seq<string>): (r: Dict<T>)
    requires |ids| == |items|
    ensures r.Keys == SetOf(ids)
    ensures forall k :: k in r ==> r[k] == Some(items[LastIndexOf(ids, k)])
    decreases |items|
  {
    if |items| == 0 then map[]
    else
      var n := |items| - 1;
      var earlier := ConvertListToDict(items[..n], ids[..n]);
      assert forall k :: k in ids <==> k == ids[n] || k in ids[..n];
      earlier[ids[n] := Some(items[n])]
  }

  /** With distinct ids, every item is filed under its own id. */
  lemma ConvertListToDictDistinct<T>(items: seq<T>, ids: seq<string>, i: nat)
    requires |ids| == |items| && NoDuplicates(ids) && i < |items|
    ensures ids[i] in ConvertListToDict(items, ids)
    ensures ConvertListToDict(items, ids)[ids[i]] == Some(items[i])
  {
    assert ids[i] in ids;
  }

  /** An item's dictionary is the dictionary of the one-item list. */
  lemma ItemDictIsOneItemList<T>(item: T, id: string)
    ensures ConvertItemToDict(item, id) == ConvertListToDict([item], [id])
  {
    assert [item][..0] == [] && [id][..0] == [];
  }

  /** The identifiers an indexer assigns to a list of items. */
  function IndexedIds<T>(items: seq<T>, indexer: T -> string): (ids: seq<string>)
    ensures |ids| == |items|
    ensures forall i :: 0 <= i < |items| ==> ids[i] == indexer(items[i])
  {
    seq(|items|, i requires 0 <= i < |items| => indexer(items[i]))
  }
}
