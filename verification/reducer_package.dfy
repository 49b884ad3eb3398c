/**
 A reducer package aggregates action packages by action type and named
 thunks by thunk name, and turns them into one reducer that dispatches on
 the action type. Thunks are opaque here (type parameter `Th`).
 */
module ReducerPackages {
  import opened Common
  import opened ActionPackages

  datatype ReducerPackage<!S, !P, Th> = ReducerPackage(
    packages: map<string, ActionPackage<S, P>>,
    thunks: map<string, Th>)

  function EmptyReducerPackage<S, P, Th>(): ReducerPackage<S, P, Th> {
    ReducerPackage(map[], map[])
  }

  /** Every action package is filed under its own action name. */
  predicate Keyed<S, P, Th>(rp: ReducerPackage<S, P, Th>) {
    forall n :: n in rp.packages ==> rp.packages[n].actionName == n
  }

  /** The package reduces every state to itself. */
  ghost predicate IsByPass<S(!new), P(!new)>(pkg: ActionPackage<S, P>) {
    forall s: S, p: P :: pkg.reduce(s, p) == s
  }

  /** Returns the package filed under `actionName`, creating it (with the
      given reduce method, or the by-pass method when none is given) only
      when the name is not yet registered. */
  function GetOrGenerateActionPackage<S(!new), P(!new), Th>(
    rp: ReducerPackage<S, P, Th>, actionName: string, handler: Option<(S, P) -> S>)
    : (r: (ReducerPackage<S, P, Th>, ActionPackage<S, P>))
    ensures actionName in r.0.packages && r.1 == r.0.packages[actionName]
    ensures r.0.thunks == rp.thunks
    ensures actionName in rp.packages ==> r.0 == rp
    ensures actionName !in rp.packages ==>
              && r.0.packages == rp.packages[actionName := r.1]
              && r.1.actionName == actionName
              && r.1.creators.Keys == {actionName}
              && (forall p: P :: Invoke(r.1.creators[actionName], p) == Action(actionName, p))
              && (handler.Some? ==> forall s: S, p: P :: r.1.reduce(s, p) == handler.value(s, p))
              && (handler.None? ==> IsByPass(r.1))
  {
    if actionName in rp.packages then (rp, rp.packages[actionName])
    else
      var reduceMethod := if handler.Some? then handler.value else ByPassReduceMethod();
      var pkg := NewActionPackage(actionName, reduceMethod);
      (rp.(packages := rp.packages[actionName := pkg]), pkg)
  }

  /** Registers a reduce method for `actionName`; the first registration of
      a name wins. Returns the default creator of the package filed under
      the name. */
  function AddHandler<S(!new), P(!new), Th>(rp: ReducerPackage<S, P, Th>, actionName: string, handler: (S, P) -> S)
    : (r: (ReducerPackage<S, P, Th>, Creator<P>))
    ensures r.0.thunks == rp.thunks
    ensures r.0.packages.Keys == rp.packages.Keys + {actionName}
    ensures actionName in rp.packages ==> r.0 == rp
    ensures actionName !in rp.packages ==>
              && r.0.packages[actionName].actionName == actionName
              && forall s: S, p: P :: r.0.packages[actionName].reduce(s, p) == handler(s, p)
    ensures forall n :: n in rp.packages ==> r.0.packages[n] == rp.packages[n]
    ensures Keyed(rp) ==> Keyed(r.0) && forall p: P :: Invoke(r.1, p) == Action(actionName, p)
  {
    var (rp', pkg) := GetOrGenerateActionPackage(rp, actionName, Some(handler));
    (rp', GetDefaultActionCreator(pkg))
  }

  /** The name argument of `addEpic`: one name, or an array of names. */
  datatype EpicNames = OneName(name: string) | NameArray(names: seq<string>)

  function NamesOf(names: EpicNames): seq<string> {
    match names
    case OneName(n) => [n]
    case NameArray(ns) => ns
  }

  /** Files each name with the by-pass reduce method unless it is already
      registered, and returns one creator per name, in order. */
  function AddEpicNames<S(!new), P(!new), Th>(rp: ReducerPackage<S, P, Th>, names: seq<string>)
    : (r: (ReducerPackage<S, P, Th>, seq<Creator<P>>))
    ensures r.0.thunks == rp.thunks
    ensures r.0.packages.Keys == rp.packages.Keys + (SetOf(names))
    ensures forall n :: n in rp.packages ==> r.0.packages[n] == rp.packages[n]
    ensures forall n :: n in r.0.packages && n !in rp.packages ==>
              r.0.packages[n].actionName == n && IsByPass(r.0.packages[n])
    ensures |r.1| == |names|
    ensures Keyed(rp) ==> Keyed(r.0)
    ensures Keyed(rp) ==> forall i, p: P :: 0 <= i < |names| ==> Invoke(r.1[i], p) == Action(names[i], p)
    ensures Keyed(rp) ==> forall i :: 0 <= i < |names| ==> r.1[i].actionType == names[i]
    decreases |names|
  {
    if |names| == 0 then (rp, [])
    else
      var (rp1, pkg) := GetOrGenerateActionPackage(rp, names[0], None);
      var creator := Creator(pkg.actionName, (p: P) => GetAction(pkg, p).payload);
      var (rp2, rest) := AddEpicNames(rp1, names[1..]);
      (rp2, [creator] + rest)
  }

  /** `addEpic`: the epic method itself is discarded (its wiring is
      commented out), so only the names are registered, with the by-pass
      reduce method. */
  function AddEpic<S(!new), P(!new), Th, E>(rp: ReducerPackage<S, P, Th>, names: EpicNames, epic: E)
    : (r: (ReducerPackage<S, P, Th>, seq<Creator<P>>))
    ensures r.0.thunks == rp.thunks
    ensures r.0.packages.Keys == rp.packages.Keys + SetOf(NamesOf(names))
    ensures forall n :: n in rp.packages ==> r.0.packages[n] == rp.packages[n]
    ensures forall n :: n in r.0.packages && n !in rp.packages ==>
              r.0.packages[n].actionName == n && IsByPass(r.0.packages[n])
    ensures |r.1| == |NamesOf(names)|
    ensures Keyed(rp) ==> forall i :: 0 <= i < |r.1| ==> r.1[i].actionType == NamesOf(names)[i]
  {
    AddEpicNames(rp, NamesOf(names))
  }

  /** Files a whole action package under its action name, replacing any
      package already filed there. */
  function AddActionPackage<S(!new), P(!new), Th>(rp: ReducerPackage<S, P, Th>, pkg: ActionPackage<S, P>)
    : (r: (ReducerPackage<S, P, Th>, Creator<P>))
    ensures r.0.thunks == rp.thunks
    ensures r.0.packages.Keys == rp.packages.Keys + {pkg.actionName}
    ensures r.0.packages[pkg.actionName] == pkg
    ensures forall n :: n in rp.packages && n != pkg.actionName ==> r.0.packages[n] == rp.packages[n]
    ensures Keyed(rp) ==> Keyed(r.0)
    ensures forall p: P :: Invoke(r.1, p) == Action(pkg.actionName, p)
  {
    (rp.(packages := rp.packages[pkg.actionName := pkg]), GetDefaultActionCreator(pkg))
  }

  /** Stores a thunk under its name (a later registration replaces an
      earlier one) and hands the thunk back. */
  function RegisterThunk<S, P, Th>(rp: ReducerPackage<S, P, Th>, thunkName: string, thunk: Th)
    : (r: (ReducerPackage<S, P, Th>, Th))
    ensures r.1 == thunk
    ensures r.0.packages == rp.packages
    ensures r.0.thunks.Keys == rp.thunks.Keys + {thunkName}
    ensures r.0.thunks[thunkName] == thunk
    ensures forall n :: n in rp.thunks && n != thunkName ==> r.0.thunks[n] == rp.thunks[n]
  {
    (rp.(thunks := rp.thunks[thunkName := thunk]), thunk)
  }

  /** Looks a thunk up by name; `None` is `undefined`. */
  function GetThunkAs<S, P, Th>(rp: ReducerPackage<S, P, Th>, thunkName: string): (r: Option<Th>)
    ensures r.Some? <==> thunkName in rp.thunks
    ensures r.Some? ==> r.value == rp.thunks[thunkName]
  {
    if thunkName in rp.thunks then Some(rp.thunks[thunkName]) else None
  }

  /** The last of two registrations under one thunk name is the one found. */
  lemma RegisterThunkLastWins<S, P, Th>(rp: ReducerPackage<S, P, Th>, thunkName: string, first: Th, second: Th)
    ensures var rp1 := RegisterThunk(rp, thunkName, first).0;
            GetThunkAs(RegisterThunk(rp1, thunkName, second).0, thunkName) == Some(second)
  {
  }

  /** Merges the creator dictionaries of the packages listed in `order`;
      on a shared key the package listed later wins. */
  function MergeCreators<S, P, Th>(rp: ReducerPackage<S, P, Th>, order: seq<string>): (m: map<string, Creator<P>>)
    requires forall n :: n in order ==> n in rp.packages
    ensures forall key :: key in m <==> exists n :: n in order && key in rp.packages[n].creators
    ensures forall key :: key in m ==>
              exists n :: n in order && key in rp.packages[n].creators && m[key] == rp.packages[n].creators[key]
    decreases |order|
  {
    if |order| == 0 then map[]
    else rp.packages[order[0]].creators + MergeCreators(rp, order[1..])
  }

  /** On a key several packages share, the merged creator is the one of the
      package listed last. */
  lemma {:induction false} MergeCreatorsLastWins<S, P, Th>(rp: ReducerPackage<S, P, Th>, order: seq<string>, i: nat, key: string)
    requires forall n :: n in order ==> n in rp.packages
    requires i < |order| && key in rp.packages[order[i]].creators
    requires forall j :: i < j < |order| ==> key !in rp.packages[order[j]].creators
    ensures key in MergeCreators(rp, order)
    ensures MergeCreators(rp, order)[key] == rp.packages[order[i]].creators[key]
    decreases |order|
  {
    if i == 0 {
      forall n | n in order[1..]
        ensures key !in rp.packages[n].creators
      {
        var j :| 0 <= j < |order[1..]| && order[1..][j] == n;
        assert order[j + 1] == n;
      }
    } else {
      forall j | i - 1 < j < |order[1..]|
        ensures key !in rp.packages[order[1..][j]].creators
      {
        assert order[1..][j] == order[j + 1];
      }
      MergeCreatorsLastWins(rp, order[1..], i - 1, key);
    }
  }

  /** `getActionCreators`, with `order` the enumeration order of the
      package dictionary. */
  function GetActionCreators<S, P, Th>(rp: ReducerPackage<S, P, Th>, order: seq<string>): (m: map<string, Creator<P>>)
    requires IsEnumeration(order, rp.packages.Keys)
    ensures forall key :: key in m <==>
              exists n :: n in rp.packages && key in rp.packages[n].creators
    ensures forall key :: key in m ==>
              exists n :: n in rp.packages && key in rp.packages[n].creators && m[key] == rp.packages[n].creators[key]
  {
    assert forall n :: n in order <==> n in rp.packages;
    MergeCreators(rp, order)
  }

  /** What `getDispatchable` hands out. */
  datatype Dispatchable<!P, Th> =
    | CreatorDispatchable(creator: Creator<P>)
    | ThunkDispatchable(thunk: Th)
      /** a creator whose actions always carry this type and a null payload */
    | NullPayloadDispatchable(actionType: string)

  /** Resolves a name: a registered action creator first, then a registered
      thunk, and otherwise a creator of null-payload actions of that name.
      It never fails. */
  function GetDispatchable<S, P, Th>(rp: ReducerPackage<S, P, Th>, order: seq<string>, name: string)
    : (d: Dispatchable<P, Th>)
    requires IsEnumeration(order, rp.packages.Keys)
    ensures d.CreatorDispatchable? <==> exists n :: n in rp.packages && name in rp.packages[n].creators
    ensures d.CreatorDispatchable? ==> d.creator == GetActionCreators(rp, order)[name]
    ensures d.ThunkDispatchable? <==> !d.CreatorDispatchable? && name in rp.thunks
    ensures d.ThunkDispatchable? ==> name in rp.thunks && d.thunk == rp.thunks[name]
    ensures d.NullPayloadDispatchable? ==> d.actionType == name
  {
    var creators := GetActionCreators(rp, order);
    if name in creators then CreatorDispatchable(creators[name])
    else
      match GetThunkAs(rp, name)
      case Some(t) => ThunkDispatchable(t)
      case None => NullPayloadDispatchable(name)
  }

  /** Every package holds exactly its default creator (no named creators
      were generated). */
  predicate DefaultCreatorsOnly<S(!new), P(!new), Th>(rp: ReducerPackage<S, P, Th>) {
    forall n :: n in rp.packages ==> rp.packages[n].creators.Keys == {n}
  }

  /** In a registry of default creators only, the dispatchable for a
      registered action name is that package's own default creator. */
  lemma DispatchableOfRegisteredName<S(!new), P(!new), Th>(
    rp: ReducerPackage<S, P, Th>, order: seq<string>, name: string)
    requires IsEnumeration(order, rp.packages.Keys)
    requires DefaultCreatorsOnly(rp)
    requires name in rp.packages
    ensures GetDispatchable(rp, order, name) == CreatorDispatchable(rp.packages[name].creators[name])
  {
    var i :| 0 <= i < |order| && order[i] == name;
    forall j | i < j < |order|
      ensures name !in rp.packages[order[j]].creators
    {
      assert order[j] != order[i];
      assert rp.packages[order[j]].creators.Keys == {order[j]};
    }
    MergeCreatorsLastWins(rp, order, i, name);
    var m := GetActionCreators(rp, order);
    assert m == MergeCreators(rp, order);
    assert name in m && m[name] == rp.packages[name].creators[name];
    assert GetDispatchable(rp, order, name) == CreatorDispatchable(m[name]);
  }

  /** In a registry of default creators only, a name with no package
      resolves to its thunk, or else to the null-payload creator. */
  lemma DispatchableOfUnregisteredName<S(!new), P(!new), Th>(
    rp: ReducerPackage<S, P, Th>, order: seq<string>, name: string)
    requires IsEnumeration(order, rp.packages.Keys)
    requires DefaultCreatorsOnly(rp)
    requires name !in rp.packages
    ensures name in rp.thunks ==> GetDispatchable(rp, order, name) == ThunkDispatchable(rp.thunks[name])
    ensures name !in rp.thunks ==> GetDispatchable(rp, order, name) == NullPayloadDispatchable(name)
  {
    forall n | n in rp.packages
      ensures name !in rp.packages[n].creators
    {
      assert rp.packages[n].creators.Keys == {n};
    }
  }

  /** One call of the closure that `generateReducer(defaultState)` returns:
      the next captured default (`r.0`) and the reduced state (`r.1`). The
      package dictionary is read at call time. */
  function GenerateReducerStep<S, P, Th>(rp: ReducerPackage<S, P, Th>, defaultState: S, state: Option<S>, action: Action<P>)
    : (r: (S, S))
    ensures r.0 == state.GetOr(defaultState)
    ensures action.actionType !in rp.packages ==> r.1 == r.0
    ensures action.actionType in rp.packages ==>
              r.1 == rp.packages[action.actionType].reduce(r.0, action.payload)
  {
    var current := state.GetOr(defaultState);
    if action.actionType !in rp.packages then (current, current)
    else (current, rp.packages[action.actionType].reduce(current, action.payload))
  }

  /** The aggregated reducer agrees with the reducer of the package filed
      under the action's type, and leaves the state alone for any type with
      no package. */
  lemma GenerateReducerAgreesWithPackage<S(!new), P(!new), Th>(
    rp: ReducerPackage<S, P, Th>, d: S, state: Option<S>, action: Action<P>)
    requires Keyed(rp)
    ensures action.actionType in rp.packages ==>
              GenerateReducerStep(rp, d, state, action) == GetReducerStep(rp.packages[action.actionType], d, state, action)
    ensures action.actionType !in rp.packages ==>
              GenerateReducerStep(rp, d, state, action).1 == state.GetOr(d)
  {
  }

  /** Names registered through `addEpic` (and not registered before) reduce
      every state to itself in the generated reducer. */
  lemma {:induction false} EpicNamesAreIdentity<S(!new), P(!new), Th>(
    rp: ReducerPackage<S, P, Th>, names: seq<string>, d: S, s: S, payload: P, i: nat)
    requires i < |names|
    requires names[i] !in rp.packages || IsByPass(rp.packages[names[i]])
    ensures GenerateReducerStep(AddEpicNames(rp, names).0, d, Some(s), Action(names[i], payload)).1 == s
  {
    var rp' := AddEpicNames(rp, names).0;
    assert names[i] in rp'.packages;
    if names[i] in rp.packages {
      assert rp'.packages[names[i]] == rp.packages[names[i]];
    } else {
      assert IsByPass(rp'.packages[names[i]]);
    }
  }

  /** A clone has the same action names, each package cloned, and the very
      same thunk dictionary. */
  function Clone<S(!new), P(!new), Th>(rp: ReducerPackage<S, P, Th>): (c: ReducerPackage<S, P, Th>)
    ensures c.packages.Keys == rp.packages.Keys
    ensures c.thunks == rp.thunks
    ensures forall n :: n in c.packages ==>
              && c.packages[n].actionName == rp.packages[n].actionName
              && c.packages[n].creators == rp.packages[n].creators
    ensures forall n, s: S, p: P :: n in c.packages ==> c.packages[n].reduce(s, p) == rp.packages[n].reduce(s, p)
  {
    ReducerPackage(map n | n in rp.packages :: ActionPackages.Clone(rp.packages[n]), rp.thunks)
  }

  /** The clone's generated reducer behaves exactly as the original's. */
  lemma CloneReducesAlike<S(!new), P(!new), Th>(rp: ReducerPackage<S, P, Th>, d: S, state: Option<S>, action: Action<P>)
    ensures GenerateReducerStep(Clone(rp), d, state, action) == GenerateReducerStep(rp, d, state, action)
  {
  }
}
