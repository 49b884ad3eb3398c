/**
 Shared vocabulary of the reducer library: the nullable wrapper used for
 JavaScript `null`, the `{type, payload}` action envelope, the two stock
 reduce methods, and the notion of a key enumeration (the order in which
 `Object.keys` lists a dictionary).
 */
module Common {

  /** `None` stands for JavaScript `null`; a key that is absent from a map
      stands for `undefined`. */
  datatype Option<+T> = None | Some(value: T) {
    function GetOr(default: T): T {
      match this
      case Some(v) => v
      case None => default
    }
  }

  /** A payloaded action: the envelope every dispatch carries. */
  datatype Action<P> = Action(actionType: string, payload: P)

  /** Builds the action envelope; the payload is carried through untouched. */
  function MakePayloadedAction<P>(actionName: string, payload: P): (a: Action<P>)
    ensures a.actionType == actionName
    ensures a.payload == payload
  {
    Action(actionName, payload)
  }

  /** The reduce method that ignores its payload and keeps the state. */
  function ByPassReduceMethod<S(!new), P(!new)>(): (f: (S, P) -> S)
    ensures forall s: S, p: P :: f(s, p) == s
  {
    (s: S, p: P) => s
  }

  /** The reduce method whose payload replaces the state outright. */
  function GetDirectReduxMethod<S(!new)>(): (f: (S, S) -> S)
    ensures forall s: S, p: S :: f(s, p) == p
  {
    (s: S, p: S) => p
  }

  /** True when the sequence has no repeated element. */
  predicate NoDuplicates(order: seq<string>) {
    forall i, j :: 0 <= i < j < |order| ==> order[i] != order[j]
  }

  /** `a` is `b` with some elements dropped: what is left keeps its order. */
  predicate IsSubsequence(a: seq<string>, b: seq<string>)
    decreases |b|
  {
    if |a| == 0 then true
    else if |b| == 0 then false
    else (a[0] == b[0] && IsSubsequence(a[1..], b[1..])) || IsSubsequence(a, b[1..])
  }

  /** The elements of a sequence, as a set. */
  function SetOf(s: seq<string>): (r: set<string>)
    ensures forall k :: k in r <==> k in s
  {
    set k | k in s
  }

  /** `order` lists every key of `keys` exactly once: a possible result of
      `Object.keys` on a dictionary whose domain is `keys`. */
  predicate IsEnumeration(order: seq<string>, keys: set<string>) {
    NoDuplicates(order) && SetOf(order) == keys
  }
}
