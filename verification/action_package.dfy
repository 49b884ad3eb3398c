/**
 An action package binds one action type to one reduce method and keeps the
 action creators that emit that type, keyed by creator name.
 */
module ActionPackages {
  import opened Common

  /** An action creator: every action it emits carries `actionType`, and its
      payload is the payload generator applied to the creator's argument. */
  datatype Creator<!P> = Creator(actionType: string, gen: P -> P)

  /** Calls an action creator. */
  function Invoke<P>(c: Creator<P>, arg: P): Action<P> {
    MakePayloadedAction(c.actionType, c.gen(arg))
  }

  /** The creator whose payload generator is the identity. */
  function DefaultCreator<P(!new)>(actionName: string): (c: Creator<P>)
    ensures forall p: P :: Invoke(c, p) == Action(actionName, p)
  {
    Creator(actionName, (p: P) => p)
  }

  datatype ActionPackage<!S, !P> = ActionPackage(
    actionName: string,
    reduce: (S, P) -> S,
    creators: map<string, Creator<P>>)

  /** The key a named creator is filed under: the action name for a missing
      (or empty, hence falsy) creator name, `actionName.name` otherwise. */
  function CreatorKey(actionName: string, name: Option<string>): string {
    if name.Some? && name.value != "" then actionName + "." + name.value else actionName
  }

  /** Files a new creator that emits this package's type, replacing any
      creator already filed under the same key; returns the new package and
      the creator. */
  function GenerateActionCreator<S(!new), P(!new)>(pkg: ActionPackage<S, P>, name: Option<string>, gen: P -> P)
    : (r: (ActionPackage<S, P>, Creator<P>))
    ensures r.0.actionName == pkg.actionName
    ensures forall s: S, p: P :: r.0.reduce(s, p) == pkg.reduce(s, p)
    ensures (name.None? || name.value == "") ==> r.0.creators == pkg.creators[pkg.actionName := r.1]
    ensures name.Some? && name.value != "" ==>
              r.0.creators == pkg.creators[pkg.actionName + "." + name.value := r.1]
    ensures forall p: P :: Invoke(r.1, p) == Action(pkg.actionName, gen(p))
  {
    var creator := Creator(pkg.actionName, gen);
    (pkg.(creators := pkg.creators[CreatorKey(pkg.actionName, name) := creator]), creator)
  }

  /** The constructor: a package with an empty creator dictionary into which
      the default creator is generated under the action name. */
  function NewActionPackage<S(!new), P(!new)>(actionName: string, reduceMethod: (S, P) -> S): (pkg: ActionPackage<S, P>)
    ensures pkg.actionName == actionName
    ensures forall s: S, p: P :: pkg.reduce(s, p) == reduceMethod(s, p)
    ensures pkg.creators.Keys == {actionName}
    ensures forall p: P :: Invoke(pkg.creators[actionName], p) == Action(actionName, p)
  {
    GenerateActionCreator(ActionPackage(actionName, reduceMethod, map[]), None, (p: P) => p).0
  }

  /** The default creator fixed at construction time (generating further
      creators never replaces it). */
  function GetDefaultActionCreator<S(!new), P(!new)>(pkg: ActionPackage<S, P>): Creator<P> {
    DefaultCreator(pkg.actionName)
  }

  /** The action the default creator emits for `payload`. */
  function GetAction<S(!new), P(!new)>(pkg: ActionPackage<S, P>, payload: P): (a: Action<P>)
    ensures a.actionType == pkg.actionName
    ensures a.payload == payload
  {
    Invoke(GetDefaultActionCreator(pkg), payload)
  }

  /** One call of the closure that `getReducer(defaultState)` returns. The
      closure overwrites its captured default with every defined state it is
      given, so a call yields the closure's next default (`r.0`) together
      with the reduced state (`r.1`). `None` is an undefined state. */
  function GetReducerStep<S(!new), P(!new)>(pkg: ActionPackage<S, P>, defaultState: S, state: Option<S>, action: Action<P>)
    : (r: (S, S))
    ensures state.Some? ==> r.0 == state.value
    ensures state.None? ==> r.0 == defaultState
    ensures action.actionType == pkg.actionName ==> r.1 == pkg.reduce(r.0, action.payload)
    ensures action.actionType != pkg.actionName ==> r.1 == r.0
  {
    var current := state.GetOr(defaultState);
    if action.actionType == pkg.actionName then (current, pkg.reduce(current, action.payload))
    else (current, current)
  }

  /** Once the closure has seen a defined state, a later call with an
      undefined state reduces from that remembered state. */
  lemma GetReducerRemembersState<S(!new), P(!new)>(pkg: ActionPackage<S, P>, d0: S, s: S, first: Action<P>, second: Action<P>)
    ensures var d1 := GetReducerStep(pkg, d0, Some(s), first).0;
            GetReducerStep(pkg, d1, None, second) == GetReducerStep(pkg, d0, Some(s), second)
  {
  }

  /** A clone keeps the action name, shares the creator dictionary and
      reduces exactly as the original does. */
  function Clone<S(!new), P(!new)>(pkg: ActionPackage<S, P>): (c: ActionPackage<S, P>)
    ensures c.actionName == pkg.actionName
    ensures c.creators == pkg.creators
    ensures forall s: S, p: P :: c.reduce(s, p) == pkg.reduce(s, p)
  {
    var made := NewActionPackage(pkg.actionName, (s: S, p: P) => pkg.reduce(s, p));
    made.(creators := pkg.creators)
  }

  /** The clone's reducer closure is indistinguishable from the original's. */
  lemma CloneReducesAlike<S(!new), P(!new)>(pkg: ActionPackage<S, P>, d: S, state: Option<S>, action: Action<P>)
    ensures GetReducerStep(Clone(pkg), d, state, action) == GetReducerStep(pkg, d, state, action)
  {
  }
}
