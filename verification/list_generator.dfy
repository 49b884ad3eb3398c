/**
 The list reducer package generator: it files the dictionary handlers and
 the finalize thunk under prefixed names in a reducer package, and each
 `setOn*` call files an operation's lifecycle names (through `addEpic`) and
 its thunk. The generator is immutable here: every setter returns the next
 generator.
 */
module ListGenerator {
  import opened Common
  import opened ReducerPackages
  import opened CacheState
  import opened CacheReducers
  import Names = ActionNames
  import Lifecycle

  /** What a custom operation converts its result into. */
  datatype CustomKind = CustomList | CustomDeletedList | CustomItem | CustomDeletedItem

  /** The thunks the generator registers, by what they do. */
  datatype CacheThunk =
    | FinalizeThunk
    | OperationThunk(op: Names.Op, granularity: Names.Granularity)
    | CustomThunk(name: string, kind: CustomKind)

  type CachePackage<!T, !A> = ReducerPackage<CachedListState<T>, CachePayload<T, A>, CacheThunk>

  /** `registered` records which server functions have been supplied (the
      `addItemFunc`, `addListFunc`, … fields). */
  datatype Generator<!T, !A> = Generator(
    prefix: string,
    indexer: T -> string,
    reducerPackage: CachePackage<T, A>,
    registered: set<(Names.Op, Names.Granularity)>)

  /** The reduce method filed for a handler. */
  function HandlerReduce<T(!new), A(!new)>(h: DictHandler)
    : (f: (CachedListState<T>, CachePayload<T, A>) -> CachedListState<T>)
    ensures forall s, p :: f(s, p) == ApplyHandler(h, s, p)
  {
    (s: CachedListState<T>, p: CachePayload<T, A>) => ApplyHandler(h, s, p)
  }

  /** In a list of distinct handlers, no later handler shares the first
      one's type. */
  lemma TailTypesDiffer(prefix: string, hs: seq<DictHandler>)
    requires |hs| > 0
    requires forall i, j :: 0 <= i < j < |hs| ==> hs[i] != hs[j]
    ensures forall h :: h in hs[1..] ==> h != hs[0] && HandlerType(prefix, h) != HandlerType(prefix, hs[0])
  {
    forall h | h in hs[1..] ensures h != hs[0] && HandlerType(prefix, h) != HandlerType(prefix, hs[0]) {
      var j :| 0 <= j < |hs[1..]| && hs[1..][j] == h;
      assert hs[j + 1] == h;
      HandlerTypesDistinct(prefix, h, hs[0]);
    }
  }

  /** The handler's prefixed action type. */
  function HandlerType(prefix: string, h: DictHandler): string {
    Names.FixedType(prefix, HandlerAction(h))
  }

  /** The handlers in the order the constructor registers them. */
  const ALL_HANDLERS: seq<DictHandler> := [
    SetTempHandler, SetSyncedHandler, SetSyncedWithClearTempHandler, AppendTempItemHandler,
    ResetTempHandler, ResetSyncedHandler, ClearTempHandler, ClearSyncedHandler]

  lemma HandlerListed(h: DictHandler)
    ensures h in ALL_HANDLERS
  {
  }

  lemma AllHandlersListed()
    ensures forall h :: h in ALL_HANDLERS
  {
    forall h ensures h in ALL_HANDLERS { HandlerListed(h); }
  }

  lemma AllHandlerTypes(prefix: string)
    ensures (set h | h in ALL_HANDLERS :: HandlerType(prefix, h)) == (set h: DictHandler :: HandlerType(prefix, h))
  {
    AllHandlersListed();
  }

  /** Distinct handlers have distinct action types. */
  lemma HandlerTypesDistinct(prefix: string, h1: DictHandler, h2: DictHandler)
    ensures HandlerType(prefix, h1) == HandlerType(prefix, h2) <==> h1 == h2
  {
    Names.FixedTypesDistinct(prefix, HandlerAction(h1), HandlerAction(h2));
  }

  /** The package under the handler's type reduces as the handler does. */
  ghost predicate HandlerWired<T(!new), A(!new)>(rp: CachePackage<T, A>, prefix: string, h: DictHandler) {
    HandlerType(prefix, h) in rp.packages &&
    forall s, p :: rp.packages[HandlerType(prefix, h)].reduce(s, p) == ApplyHandler(h, s, p)
  }

  /** Files the handlers in order, each with `addHandler` (so a name that is
      already filed keeps its package). */
  function AddHandlers<T(!new), A(!new)>(rp: CachePackage<T, A>, prefix: string, hs: seq<DictHandler>)
    : (r: CachePackage<T, A>)
    requires forall i, j :: 0 <= i < j < |hs| ==> hs[i] != hs[j]
    ensures r.thunks == rp.thunks
    ensures r.packages.Keys == rp.packages.Keys + set h | h in hs :: HandlerType(prefix, h)
    ensures forall n :: n in rp.packages ==> r.packages[n] == rp.packages[n]
    ensures forall h :: h in hs && HandlerType(prefix, h) !in rp.packages ==> HandlerWired(r, prefix, h)
    decreases |hs|
  {
    if |hs| == 0 then rp
    else
      var rp1 := AddHandler(rp, HandlerType(prefix, hs[0]), HandlerReduce(hs[0])).0;
      var r := AddHandlers(rp1, prefix, hs[1..]);
      assert forall h :: h in hs <==> h == hs[0] || h in hs[1..];
      TailTypesDiffer(prefix, hs);
      r
  }

  /** The action types of all eight handlers. */
  function HandlerTypes(prefix: string): set<string> {
    set h: DictHandler :: HandlerType(prefix, h)
  }

  /** The constructor's first stage: the eight handlers, in order. */
  function HandlersFiled<T(!new), A(!new)>(base: CachePackage<T, A>, prefix: string): (r: CachePackage<T, A>)
    ensures r.thunks == base.thunks
    ensures r.packages.Keys == base.packages.Keys + HandlerTypes(prefix)
    ensures forall n :: n in base.packages ==> r.packages[n] == base.packages[n]
    ensures forall h :: HandlerType(prefix, h) !in base.packages ==> HandlerWired(r, prefix, h)
  {
    AllHandlerTypes(prefix);
    AllHandlersListed();
    AddHandlers(base, prefix, ALL_HANDLERS)
  }

  /** Files one name through `addEpic`: a name that is not yet filed gets
      a package whose reduce method returns the state itself. */
  function EpicFiled<T(!new), A(!new), E>(rp: CachePackage<T, A>, name: string, epic: E): (r: CachePackage<T, A>)
    ensures r.thunks == rp.thunks
    ensures r.packages.Keys == rp.packages.Keys + {name}
    ensures forall n :: n in rp.packages ==> r.packages[n] == rp.packages[n]
    ensures name !in rp.packages ==> IsByPass(r.packages[name])
  {
    assert SetOf([name]) == {name};
    AddEpic(rp, OneName(name), epic).0
  }

  /** The constructor: the eight handlers, `CLEAR_BOTH_DICT` through
      `addEpic`, and the finalize thunk, filed in a given reducer package or
      in a new one. */
  function NewGenerator<T(!new), A(!new)>(prefix: string, indexer: T -> string, given: Option<CachePackage<T, A>>)
    : (g: Generator<T, A>)
    ensures g.prefix == prefix && g.indexer == indexer && g.registered == {}
    ensures var base := given.GetOr(EmptyReducerPackage());
            && g.reducerPackage.packages.Keys ==
                 base.packages.Keys + HandlerTypes(prefix) + {Names.FixedType(prefix, Names.ClearBoth)}
            && (forall n :: n in base.packages ==> g.reducerPackage.packages[n] == base.packages[n])
            && g.reducerPackage.thunks == base.thunks[Names.FixedType(prefix, Names.FinalizeTemp) := FinalizeThunk]
            && (forall h :: HandlerType(prefix, h) !in base.packages ==> HandlerWired(g.reducerPackage, prefix, h))
            && (Names.FixedType(prefix, Names.ClearBoth) !in base.packages ==>
                  IsByPass(g.reducerPackage.packages[Names.FixedType(prefix, Names.ClearBoth)]))
  {
    var base := given.GetOr(EmptyReducerPackage());
    var rp1 := HandlersFiled(base, prefix);
    var rp2 := EpicFiled(rp1, Names.FixedType(prefix, Names.ClearBoth), (p: CachePayload<T, A>) => Lifecycle.ClearBothEpic(prefix, p));
    var rp3 := RegisterThunk(rp2, Names.FixedType(prefix, Names.FinalizeTemp), FinalizeThunk).0;
    ConstructorStages(prefix, base, rp1, rp2, rp3);
    Generator(prefix, indexer, rp3, {})
  }

  /** What the constructor's three stages add up to. */
  lemma ConstructorStages<T(!new), A(!new)>(
    prefix: string, base: CachePackage<T, A>, rp1: CachePackage<T, A>, rp2: CachePackage<T, A>, rp3: CachePackage<T, A>)
    requires rp1.thunks == base.thunks
    requires rp1.packages.Keys == base.packages.Keys + HandlerTypes(prefix)
    requires forall n :: n in base.packages ==> rp1.packages[n] == base.packages[n]
    requires forall h :: HandlerType(prefix, h) !in base.packages ==> HandlerWired(rp1, prefix, h)
    requires rp2.thunks == rp1.thunks
    requires rp2.packages.Keys == rp1.packages.Keys + {Names.FixedType(prefix, Names.ClearBoth)}
    requires forall n :: n in rp1.packages ==> rp2.packages[n] == rp1.packages[n]
    requires Names.FixedType(prefix, Names.ClearBoth) !in rp1.packages ==>
               IsByPass(rp2.packages[Names.FixedType(prefix, Names.ClearBoth)])
    requires rp3.packages == rp2.packages
    requires rp3.thunks == rp2.thunks[Names.FixedType(prefix, Names.FinalizeTemp) := FinalizeThunk]
    ensures rp3.packages.Keys == base.packages.Keys + HandlerTypes(prefix) + {Names.FixedType(prefix, Names.ClearBoth)}
    ensures forall n :: n in base.packages ==> rp3.packages[n] == base.packages[n]
    ensures rp3.thunks == base.thunks[Names.FixedType(prefix, Names.FinalizeTemp) := FinalizeThunk]
    ensures forall h :: HandlerType(prefix, h) !in base.packages ==> HandlerWired(rp3, prefix, h)
    ensures Names.FixedType(prefix, Names.ClearBoth) !in base.packages ==>
              IsByPass(rp3.packages[Names.FixedType(prefix, Names.ClearBoth)])
  {
    forall h | HandlerType(prefix, h) !in base.packages ensures HandlerWired(rp3, prefix, h) {
      assert HandlerWired(rp1, prefix, h);
    }
    FixedTypeIsHandlerType(prefix, Names.ClearBoth);
  }

  /** The generator's wiring: every handler type reduces through its
      handler, `CLEAR_BOTH_DICT` reduces to the state itself, and the
      finalize thunk is filed. */
  ghost predicate Wired<T(!new), A(!new)>(g: Generator<T, A>) {
    && (forall h :: HandlerWired(g.reducerPackage, g.prefix, h))
    && Names.FixedType(g.prefix, Names.ClearBoth) in g.reducerPackage.packages
    && IsByPass(g.reducerPackage.packages[Names.FixedType(g.prefix, Names.ClearBoth)])
    && Names.FixedType(g.prefix, Names.FinalizeTemp) in g.reducerPackage.thunks
    && g.reducerPackage.thunks[Names.FixedType(g.prefix, Names.FinalizeTemp)] == FinalizeThunk
  }

  /** A generator built in a package that has none of the prefixed fixed
      names is wired. */
  lemma NewGeneratorIsWired<T(!new), A(!new)>(prefix: string, indexer: T -> string, given: Option<CachePackage<T, A>>)
    requires given.Some? ==> forall a :: Names.FixedType(prefix, a) !in given.value.packages
    ensures Wired(NewGenerator(prefix, indexer, given))
  {
    var g := NewGenerator(prefix, indexer, given);
    WiredWhenFixedNamesFree(g, given.GetOr(EmptyReducerPackage()));
  }

  /** The wiring the constructor's contract gives when the package it
      starts from has none of the prefixed fixed names. */
  lemma WiredWhenFixedNamesFree<T(!new), A(!new)>(g: Generator<T, A>, base: CachePackage<T, A>)
    requires forall a :: Names.FixedType(g.prefix, a) !in base.packages
    requires forall h :: HandlerType(g.prefix, h) !in base.packages ==> HandlerWired(g.reducerPackage, g.prefix, h)
    requires Names.FixedType(g.prefix, Names.ClearBoth) in g.reducerPackage.packages
    requires Names.FixedType(g.prefix, Names.ClearBoth) !in base.packages ==>
               IsByPass(g.reducerPackage.packages[Names.FixedType(g.prefix, Names.ClearBoth)])
    requires g.reducerPackage.thunks == base.thunks[Names.FixedType(g.prefix, Names.FinalizeTemp) := FinalizeThunk]
    ensures Wired(g)
  {
    forall h ensures HandlerWired(g.reducerPackage, g.prefix, h) {
      assert HandlerType(g.prefix, h) !in base.packages;
    }
  }

  /** The handlers cover exactly the fixed actions other than
      `APPEND_TEMP_DICT`, `CLEAR_BOTH_DICT` and `FINALIZE_TEMP_DICT`. */
  lemma FixedTypeIsHandlerType(prefix: string, a: Names.FixedAction)
    ensures Names.FixedType(prefix, a) in HandlerTypes(prefix) <==>
              a !in {Names.AppendTempDict, Names.ClearBoth, Names.FinalizeTemp}
  {
    if Names.FixedType(prefix, a) in HandlerTypes(prefix) {
      var h :| HandlerType(prefix, h) == Names.FixedType(prefix, a);
      Names.FixedTypesDistinct(prefix, HandlerAction(h), a);
    } else {
      var h := match a
        case SetTemp => SetTempHandler
        case SetSynced => SetSyncedHandler
        case SetSyncedWithClearTemp => SetSyncedWithClearTempHandler
        case AppendTempItem => AppendTempItemHandler
        case ResetTemp => ResetTempHandler
        case ResetSynced => ResetSyncedHandler
        case ClearTemp => ClearTempHandler
        case ClearSynced => ClearSyncedHandler
        case _ => SetTempHandler;
      assert HandlerType(prefix, h) in HandlerTypes(prefix);
    }
  }

  /** One step of the generated reducer on a defined state. */
  function Reduce<T(!new), A(!new)>(g: Generator<T, A>, s: CachedListState<T>, a: Action<CachePayload<T, A>>)
    : CachedListState<T>
  {
    GenerateReducerStep(g.reducerPackage, s, Some(s), a).1
  }

  /** A dictionary action reduces through its handler. */
  lemma DictActionReducesThroughHandler<T(!new), A(!new)>(g: Generator<T, A>, h: DictHandler, s: CachedListState<T>, p: CachePayload<T, A>)
    requires Wired(g)
    ensures Reduce(g, s, Action(HandlerType(g.prefix, h), p)) == ApplyHandler(h, s, p)
  {
    assert HandlerWired(g.reducerPackage, g.prefix, h);
  }

  /** `CLEAR_BOTH_DICT` itself leaves the state alone: only its epic, which
      is never wired, would clear the dictionaries. */
  lemma ClearBothReducesToItself<T(!new), A(!new)>(g: Generator<T, A>, s: CachedListState<T>, p: CachePayload<T, A>)
    requires Wired(g)
    ensures Reduce(g, s, Action(Names.FixedType(g.prefix, Names.ClearBoth), p)) == s
  {
  }

  /** The actions of the `CLEAR_BOTH_DICT` epic, reduced in turn, clear the
      listed keys (or everything) from both dictionaries. */
  lemma ClearBothEpicClearsBoth<T(!new), A(!new)>(g: Generator<T, A>, s: CachedListState<T>, ids: Option<seq<string>>)
    requires Wired(g)
    ensures var p: CachePayload<T, A> := if ids.Some? then KeysPayload(ids.value) else UndefinedPayload;
            var acts := Lifecycle.ClearBothEpic(g.prefix, p);
            var r := Reduce(g, Reduce(g, s, acts[0]), acts[1]);
            && r.tempDict == ClearTempDict(s, ids).tempDict
            && r.syncedDict == ClearSyncedDict(s, ids).syncedDict
  {
    var p: CachePayload<T, A> := if ids.Some? then KeysPayload(ids.value) else UndefinedPayload;
    var acts := Lifecycle.ClearBothEpic(g.prefix, p);
    DictActionReducesThroughHandler(g, ClearTempHandler, s, p);
    DictActionReducesThroughHandler(g, ClearSyncedHandler, Reduce(g, s, acts[0]), p);
  }

  /** The stand-alone action creators the constructor defines. */
  function AppendingTempDictAction<T, A>(g: Generator<T, A>, d: Dict<T>): (a: Action<CachePayload<T, A>>)
    ensures a.actionType == Names.FixedType(g.prefix, Names.AppendTempDict) && a.payload == DictPayload(d)
  {
    MakePayloadedAction(Names.FixedType(g.prefix, Names.AppendTempDict), DictPayload(d))
  }

  function AppendingTempItemAction<T, A>(g: Generator<T, A>, id: string, item: Option<T>): (a: Action<CachePayload<T, A>>)
    ensures a.actionType == Names.FixedType(g.prefix, Names.AppendTempItem) && a.payload == KeyValuePayload(id, item)
  {
    MakePayloadedAction(Names.FixedType(g.prefix, Names.AppendTempItem), KeyValuePayload(id, item))
  }

  /** The resetting creators send `{}` when called without a dictionary. */
  function ResettingDictAction<T, A>(g: Generator<T, A>, synced: bool, d: Option<Dict<T>>): (a: Action<CachePayload<T, A>>)
    ensures a.actionType == Names.FixedType(g.prefix, if synced then Names.ResetSynced else Names.ResetTemp)
    ensures a.payload == DictPayload(if d.Some? then d.value else map[])
  {
    MakePayloadedAction(Names.FixedType(g.prefix, if synced then Names.ResetSynced else Names.ResetTemp),
                        DictPayload(d.GetOr(map[])))
  }

  function SettingDictAction<T, A>(g: Generator<T, A>, synced: bool, d: Dict<T>): (a: Action<CachePayload<T, A>>)
    ensures a.actionType == Names.FixedType(g.prefix, if synced then Names.SetSynced else Names.SetTemp)
    ensures a.payload == DictPayload(d)
  {
    MakePayloadedAction(Names.FixedType(g.prefix, if synced then Names.SetSynced else Names.SetTemp), DictPayload(d))
  }

  /** The clearing creators send the key list, or `undefined` without one. */
  function ClearingDictAction<T, A>(g: Generator<T, A>, target: Names.FixedAction, ids: Option<seq<string>>)
    : (a: Action<CachePayload<T, A>>)
    requires target in {Names.ClearTemp, Names.ClearSynced, Names.ClearBoth}
    ensures a.actionType == Names.FixedType(g.prefix, target)
    ensures ids.Some? ==> a.payload == KeysPayload(ids.value)
    ensures ids.None? ==> a.payload == UndefinedPayload
  {
    MakePayloadedAction(Names.FixedType(g.prefix, target), if ids.Some? then KeysPayload(ids.value) else UndefinedPayload)
  }

  /** The appending-dictionary creator emits a type no handler is filed
      under, so in a generator built in a new package it changes nothing. */
  lemma AppendingTempDictIsNoOp<T(!new), A(!new)>(prefix: string, indexer: T -> string, s: CachedListState<T>, d: Dict<T>)
    ensures var g := NewGenerator<T, A>(prefix, indexer, None);
            Reduce(g, s, AppendingTempDictAction(g, d)) == s
  {
    var g := NewGenerator<T, A>(prefix, indexer, None);
    var base: CachePackage<T, A> := EmptyReducerPackage();
    AppendTempDictUnfiled(g.reducerPackage, base, prefix);
    UnfiledTypeIsNoOp(g, s, AppendingTempDictAction(g, d));
  }

  /** `APPEND_TEMP_DICT` is none of the names the constructor files. */
  lemma AppendTempDictUnfiled<T(!new), A(!new)>(rp: CachePackage<T, A>, base: CachePackage<T, A>, prefix: string)
    requires rp.packages.Keys == base.packages.Keys + HandlerTypes(prefix) + {Names.FixedType(prefix, Names.ClearBoth)}
    requires Names.FixedType(prefix, Names.AppendTempDict) !in base.packages
    ensures Names.FixedType(prefix, Names.AppendTempDict) !in rp.packages
  {
    FixedTypeIsHandlerType(prefix, Names.AppendTempDict);
    Names.FixedTypesDistinct(prefix, Names.ClearBoth, Names.AppendTempDict);
  }

  /** An action whose type has no package leaves the state alone. */
  lemma UnfiledTypeIsNoOp<T(!new), A(!new)>(g: Generator<T, A>, s: CachedListState<T>, a: Action<CachePayload<T, A>>)
    requires a.actionType !in g.reducerPackage.packages
    ensures Reduce(g, s, a) == s
  {
  }

  /** Resetting without a dictionary empties the temporary dictionary. */
  lemma ResettingTempWithoutDictEmptiesIt<T(!new), A(!new)>(g: Generator<T, A>, s: CachedListState<T>)
    requires Wired(g)
    ensures Reduce(g, s, ResettingDictAction(g, false, None)) == s.(tempDict := map[])
  {
    DictActionReducesThroughHandler(g, ResetTempHandler, s, DictPayload(map[]));
  }

  /** `setOn*`: files the STARTED, SUCCESS and FAILED types of the operation
      through `addEpic`, registers the operation's thunk, and records that
      a server function is present. */
  function SetOnOperation<T(!new), A(!new)>(g: Generator<T, A>, op: Names.Op, gran: Names.Granularity)
    : (r: Generator<T, A>)
    ensures r.prefix == g.prefix && r.indexer == g.indexer
    ensures r.registered == g.registered + {(op, gran)}
    ensures r.reducerPackage.packages.Keys == g.reducerPackage.packages.Keys + LifecycleTypes(g.prefix, op, gran)
    ensures forall n :: n in g.reducerPackage.packages ==> r.reducerPackage.packages[n] == g.reducerPackage.packages[n]
    ensures forall n :: n in LifecycleTypes(g.prefix, op, gran) && n !in g.reducerPackage.packages ==>
              IsByPass(r.reducerPackage.packages[n])
    ensures r.reducerPackage.thunks == g.reducerPackage.thunks[Names.OperationType(g.prefix, op, gran) := OperationThunk(op, gran)]
  {
    var rp3 := ThreeEpicsFiled(g.reducerPackage,
      Names.LifecycleType(g.prefix, op, gran, Names.Started), (p: CachePayload<T, A>) => [Lifecycle.StartedEpic(g.prefix, p)],
      Names.LifecycleType(g.prefix, op, gran, Names.Succeeded),
      (p: CachePayload<T, A>) => [Lifecycle.SuccessfulEpic(g.prefix, p)],
      Names.LifecycleType(g.prefix, op, gran, Names.Failed),
      (p: CachePayload<T, A>, order: seq<string>) requires p.DictPayload? && IsEnumeration(order, p.dict.Keys) =>
        [Lifecycle.FailedEpic(g.prefix, p, order)]);
    var rp4 := RegisterThunk(rp3, Names.OperationType(g.prefix, op, gran), OperationThunk(op, gran)).0;
    Generator(g.prefix, g.indexer, rp4, g.registered + {(op, gran)})
  }

  /** Three names filed in turn through `addEpic`. */
  function ThreeEpicsFiled<T(!new), A(!new), E1, E2, E3>(
    rp: CachePackage<T, A>, n1: string, e1: E1, n2: string, e2: E2, n3: string, e3: E3): (r: CachePackage<T, A>)
    ensures r.thunks == rp.thunks
    ensures r.packages.Keys == rp.packages.Keys + {n1, n2, n3}
    ensures forall n :: n in rp.packages ==> r.packages[n] == rp.packages[n]
    ensures forall n :: n in {n1, n2, n3} && n !in rp.packages ==> IsByPass(r.packages[n])
  {
    assert SetOf([n1, n2, n3]) == {n1, n2, n3};
    AddEpicNames(rp, [n1, n2, n3]).0
  }

  /** The STARTED, SUCCESS and FAILED types of an operation. */
  function LifecycleTypes(prefix: string, op: Names.Op, gran: Names.Granularity): set<string> {
    {Names.LifecycleType(prefix, op, gran, Names.Started), Names.LifecycleType(prefix, op, gran, Names.Succeeded),
     Names.LifecycleType(prefix, op, gran, Names.Failed)}
  }

  lemma LifecycleTypeListed(prefix: string, op: Names.Op, gran: Names.Granularity, phase: Names.Phase)
    ensures Names.LifecycleType(prefix, op, gran, phase) in LifecycleTypes(prefix, op, gran)
  {
  }

  /** Registering an operation keeps the generator wired: lifecycle types
      and thunk names never coincide with the fixed names. */
  lemma SetOnOperationKeepsWiring<T(!new), A(!new)>(g: Generator<T, A>, op: Names.Op, gran: Names.Granularity)
    requires Wired(g)
    ensures Wired(SetOnOperation(g, op, gran))
  {
    var r := SetOnOperation(g, op, gran);
    Names.ComposeActionNameInjective(g.prefix, Names.OperationName(op, gran), Names.FixedName(Names.FinalizeTemp));
    Names.LifecycleWordIsNoFixedName(op, gran, Names.Started, Names.FinalizeTemp);
    WiringCarriesOver(g, r);
  }

  /** A generator that keeps every package filed so far and the finalize
      thunk stays wired. */
  lemma WiringCarriesOver<T(!new), A(!new)>(g: Generator<T, A>, r: Generator<T, A>)
    requires Wired(g)
    requires r.prefix == g.prefix
    requires forall n :: n in g.reducerPackage.packages ==>
               n in r.reducerPackage.packages && r.reducerPackage.packages[n] == g.reducerPackage.packages[n]
    requires Names.FixedType(g.prefix, Names.FinalizeTemp) in r.reducerPackage.thunks
    requires r.reducerPackage.thunks[Names.FixedType(g.prefix, Names.FinalizeTemp)] == FinalizeThunk
    ensures Wired(r)
  {
    forall h ensures HandlerWired(r.reducerPackage, r.prefix, h) {
      assert HandlerWired(g.reducerPackage, g.prefix, h);
    }
  }

  /** The lifecycle types reduce to the state itself in a wired generator
      that did not have them before the operation was registered (their
      epics, which would translate them, are never wired). */
  lemma LifecycleTypesReduceToItself<T(!new), A(!new)>(
    g: Generator<T, A>, op: Names.Op, gran: Names.Granularity, phase: Names.Phase, s: CachedListState<T>, p: CachePayload<T, A>)
    requires Names.LifecycleType(g.prefix, op, gran, phase) !in g.reducerPackage.packages
    ensures Reduce(SetOnOperation(g, op, gran), s, Action(Names.LifecycleType(g.prefix, op, gran, phase), p)) == s
  {
    var r := SetOnOperation(g, op, gran);
    LifecycleTypeListed(g.prefix, op, gran, phase);
    assert IsByPass(r.reducerPackage.packages[Names.LifecycleType(g.prefix, op, gran, phase)]);
  }

  /** A freshly built generator has none of the lifecycle types. */
  lemma NewGeneratorLacksLifecycleTypes<T(!new), A(!new)>(
    prefix: string, indexer: T -> string, op: Names.Op, gran: Names.Granularity, phase: Names.Phase)
    ensures Names.LifecycleType(prefix, op, gran, phase) !in NewGenerator<T, A>(prefix, indexer, None).reducerPackage.packages
  {
    var g := NewGenerator<T, A>(prefix, indexer, None);
    var base: CachePackage<T, A> := EmptyReducerPackage();
    Names.LifecycleTypesDistinct(prefix, op, gran, phase);
    ConstructorFilesOnlyFixedTypes(g.reducerPackage, base, prefix, Names.LifecycleType(prefix, op, gran, phase));
  }

  /** A name that is no fixed type and was not filed before is not filed by
      the constructor. */
  lemma ConstructorFilesOnlyFixedTypes<T(!new), A(!new)>(rp: CachePackage<T, A>, base: CachePackage<T, A>, prefix: string, n: string)
    requires rp.packages.Keys == base.packages.Keys + HandlerTypes(prefix) + {Names.FixedType(prefix, Names.ClearBoth)}
    requires n !in base.packages
    requires forall a :: n != Names.FixedType(prefix, a)
    ensures n !in rp.packages
  {
    forall h: DictHandler ensures HandlerType(prefix, h) != n {
      assert n != Names.FixedType(prefix, HandlerAction(h));
    }
  }

  /** `addEpicOn…`: files one lifecycle type through `addEpic`. */
  function AddEpicOnPhase<T(!new), A(!new), E>(g: Generator<T, A>, op: Names.Op, gran: Names.Granularity, phase: Names.Phase, epic: E)
    : (r: Generator<T, A>)
    ensures r.prefix == g.prefix && r.indexer == g.indexer && r.registered == g.registered
    ensures r.reducerPackage.thunks == g.reducerPackage.thunks
    ensures r.reducerPackage.packages.Keys == g.reducerPackage.packages.Keys + {Names.LifecycleType(g.prefix, op, gran, phase)}
    ensures forall n :: n in g.reducerPackage.packages ==> r.reducerPackage.packages[n] == g.reducerPackage.packages[n]
  {
    g.(reducerPackage := EpicFiled(g.reducerPackage, Names.LifecycleType(g.prefix, op, gran, phase), epic))
  }

  /** `setOnDoingCustomDictCore` (and the getting/deleting custom setters
      built on it): files the custom SUCCESS type through `addEpic` and the
      custom thunk under `prefix.name`. */
  function SetOnCustom<T(!new), A(!new)>(g: Generator<T, A>, name: string, kind: CustomKind): (r: Generator<T, A>)
    ensures r.prefix == g.prefix && r.indexer == g.indexer && r.registered == g.registered
    ensures r.reducerPackage.packages.Keys ==
              g.reducerPackage.packages.Keys + {Names.ComposeActionName(g.prefix, name, Some(Names.SUCCESS))}
    ensures forall n :: n in g.reducerPackage.packages ==> r.reducerPackage.packages[n] == g.reducerPackage.packages[n]
    ensures r.reducerPackage.thunks ==
              g.reducerPackage.thunks[Names.ComposeActionName(g.prefix, name, None) := CustomThunk(name, kind)]
  {
    var rp1 := EpicFiled(g.reducerPackage, Names.ComposeActionName(g.prefix, name, Some(Names.SUCCESS)),
      (p: CachePayload<T, A>) => [Lifecycle.SuccessfulEpic(g.prefix, p)]);
    var rp2 := RegisterThunk(rp1, Names.ComposeActionName(g.prefix, name, None), CustomThunk(name, kind)).0;
    g.(reducerPackage := rp2)
  }

  /** `setOnGettingList` and `setOnGettingItem` are the custom setters under
      the names `GET_LIST` and `GET_ITEM`. */
  function SetOnGettingList<T(!new), A(!new)>(g: Generator<T, A>): Generator<T, A>
  {
    SetOnCustom(g, Names.GET_LIST, CustomList)
  }

  function SetOnGettingItem<T(!new), A(!new)>(g: Generator<T, A>): Generator<T, A>
  {
    SetOnCustom(g, Names.GET_ITEM, CustomItem)
  }

  /** A custom setter keeps the generator wired unless its name is the
      finalize name, whose thunk it then replaces. */
  lemma SetOnCustomKeepsWiring<T(!new), A(!new)>(g: Generator<T, A>, name: string, kind: CustomKind)
    requires Wired(g)
    ensures Wired(SetOnCustom(g, name, kind)) <==> name != Names.FINALIZE_TEMP_DICT
  {
    var r := SetOnCustom(g, name, kind);
    var fin := Names.FixedType(g.prefix, Names.FinalizeTemp);
    var custom := Names.ComposeActionName(g.prefix, name, None);
    assert fin == Names.ComposeActionName(g.prefix, Names.FINALIZE_TEMP_DICT, None);
    Names.ComposeActionNameInjective(g.prefix, name, Names.FINALIZE_TEMP_DICT);
    if name != Names.FINALIZE_TEMP_DICT {
      assert custom != fin;
      WiringCarriesOver(g, r);
    } else {
      assert r.reducerPackage.thunks[fin] == CustomThunk(name, kind);
    }
  }

  /** STARTED then FAILED, translated by their epics and reduced by the
      generated reducer: the started keys leave the temporary dictionary
      and the synced dictionary is untouched. */
  lemma StartedThenFailedThroughReducer<T(!new), A(!new)>(g: Generator<T, A>, s: CachedListState<T>, started: Dict<T>, keyOrder: seq<string>)
    requires Wired(g)
    requires IsEnumeration(keyOrder, started.Keys)
    ensures var s1 := Reduce(g, s, Lifecycle.StartedEpic<T, A>(g.prefix, DictPayload(started)));
            var s2 := Reduce(g, s1, Lifecycle.FailedEpic<T, A>(g.prefix, DictPayload(started), keyOrder));
            s2.syncedDict == s.syncedDict && s2.tempDict == s.tempDict - started.Keys
  {
    var a1 := Lifecycle.StartedEpic<T, A>(g.prefix, DictPayload(started));
    assert a1 == Action(HandlerType(g.prefix, SetTempHandler), DictPayload(started));
    DictActionReducesThroughHandler(g, SetTempHandler, s, DictPayload(started));
    var s1 := Reduce(g, s, a1);
    assert s1 == SetTempDict(s, started);
    var a2 := Lifecycle.FailedEpic<T, A>(g.prefix, DictPayload(started), keyOrder);
    assert a2 == Action(HandlerType(g.prefix, ClearTempHandler), KeysPayload(keyOrder));
    DictActionReducesThroughHandler(g, ClearTempHandler, s1, KeysPayload(keyOrder));
    assert Reduce(g, s1, a2) == ClearTempDict(s1, Some(keyOrder));
    Lifecycle.StartedThenFailed(s, started, keyOrder);
  }

  /** STARTED then SUCCESS through the reducer: the started and committed
      keys leave the temporary dictionary and the synced dictionary takes
      the committed entries without delete markers. */
  lemma StartedThenSucceededThroughReducer<T(!new), A(!new)>(g: Generator<T, A>, s: CachedListState<T>, started: Dict<T>, committed: Dict<T>)
    requires Wired(g)
    ensures var s1 := Reduce(g, s, Lifecycle.StartedEpic<T, A>(g.prefix, DictPayload(started)));
            var s2 := Reduce(g, s1, Lifecycle.SuccessfulEpic<T, A>(g.prefix, SuccessPayload(SuccessfulPayload(started, committed))));
            s2.tempDict == s.tempDict - started.Keys - committed.Keys && s2.syncedDict == Prune(s.syncedDict + committed)
  {
    var a1 := Lifecycle.StartedEpic<T, A>(g.prefix, DictPayload(started));
    assert a1 == Action(HandlerType(g.prefix, SetTempHandler), DictPayload(started));
    DictActionReducesThroughHandler(g, SetTempHandler, s, DictPayload(started));
    var s1 := Reduce(g, s, a1);
    assert s1 == SetTempDict(s, started);
    var sp := SuccessfulPayload(started, committed);
    var a2 := Lifecycle.SuccessfulEpic<T, A>(g.prefix, SuccessPayload(sp));
    assert a2 == Action(HandlerType(g.prefix, SetSyncedWithClearTempHandler), SuccessPayload(sp));
    DictActionReducesThroughHandler(g, SetSyncedWithClearTempHandler, s1, SuccessPayload(sp));
    assert Reduce(g, s1, a2) == SetSyncedDictWithClearTemp(s1, sp);
    Lifecycle.StartedThenSucceeded(s, started, committed);
  }
}
