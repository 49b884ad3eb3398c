/**
 The action types a list reducer package uses. Every type is
 `prefix.NAME` or `prefix.NAME_PHASE`: the fixed dictionary actions, the six
 server operations (add, update or delete; one item or a list) and their
 three lifecycle phases.
 */
module ActionNames {
  import opened Common

  const SET_TEMP_DICT: string := "SET_TEMP_DICT"
  const SET_SYNCED_DICT: string := "SET_SYNCED_DICT"
  const SET_SYNCED_DICT_WITH_CLEAR_TEMP: string := "SET_SYNCED_DICT_WITH_CLEAR_TEMP"
  const APPEND_TEMP_DICT: string := "APPEND_TEMP_DICT"
  const APPEND_TEMP_ITEM: string := "APPEND_TEMP_ITEM"
  const FINALIZE_TEMP_DICT: string := "FINALIZE_TEMP_DICT"
  const RESET_TEMP_DICT: string := "RESET_TEMP_DICT"
  const RESET_SYNCED_DICT: string := "RESET_SYNCED_DICT"
  const CLEAR_TEMP_DICT: string := "CLEAR_TEMP_DICT"
  const CLEAR_SYNCED_DICT: string := "CLEAR_SYNCED_DICT"
  const CLEAR_BOTH_DICT: string := "CLEAR_BOTH_DICT"

  const LIST: string := "LIST"
  const ITEM: string := "ITEM"
  const ADD: string := "ADD"
  const DELETE: string := "DELETE"
  const UPDATE: string := "UPDATE"

  const GET_LIST: string := "GET_LIST"
  const GET_ITEM: string := "GET_ITEM"

  const SUCCESS: string := "SUCCESS"
  const STARTED: string := "STARTED"
  const FAILED: string := "FAILED"

  /** The part after the name: `_suffix` for a present, non-empty (hence
      truthy) suffix, nothing otherwise. */
  function SuffixPart(suffix: Option<string>): string {
    if suffix.Some? && suffix.value != "" then "_" + suffix.value else ""
  }

  /** `composeActionName`: the prefix, a dot, the name, then the suffix
      part. */
  function ComposeActionName(prefix: string, name: string, suffix: Option<string>): (r: string)
    ensures |r| == |prefix| + 1 + |name| + |SuffixPart(suffix)|
    ensures r[..|prefix|] == prefix && r[|prefix|] == '.'
    ensures r[|prefix| + 1..|prefix| + 1 + |name|] == name
  {
    prefix + "." + name + SuffixPart(suffix)
  }

  /** Under one prefix, suffix-free names are told apart by their names. */
  lemma ComposeActionNameInjective(prefix: string, a: string, b: string)
    ensures ComposeActionName(prefix, a, None) == ComposeActionName(prefix, b, None) <==> a == b
  {
    var ra, rb := ComposeActionName(prefix, a, None), ComposeActionName(prefix, b, None);
    if ra == rb {
      assert ra[|prefix| + 1..] == a;
      assert rb[|prefix| + 1..] == b;
    }
  }

  /** A suffix is spelled into the name: `prefix.name_suffix` is the
      suffix-free type of the name `name_suffix`, and a missing or empty
      suffix adds nothing. */
  lemma SuffixJoinsName(prefix: string, name: string, suffix: Option<string>)
    ensures suffix.Some? && suffix.value != "" ==>
              ComposeActionName(prefix, name, suffix) == ComposeActionName(prefix, name + "_" + suffix.value, None)
    ensures !(suffix.Some? && suffix.value != "") ==>
              ComposeActionName(prefix, name, suffix) == ComposeActionName(prefix, name, None)
  {
    if suffix.Some? && suffix.value != "" {
      assert prefix + "." + name + ("_" + suffix.value) == prefix + "." + (name + "_" + suffix.value) + "";
    } else {
      assert prefix + "." + name + "" == prefix + "." + name;
    }
  }

  /** The three server operations. */
  datatype Op = Add | Update | Delete

  /** An operation acts on one item or on a whole list. */
  datatype Granularity = Item | List

  /** The lifecycle phases of an operation. */
  datatype Phase = Started | Succeeded | Failed

  function OpWord(op: Op): string {
    match op
    case Add => ADD
    case Update => UPDATE
    case Delete => DELETE
  }

  function GranularityWord(g: Granularity): string {
    match g
    case Item => ITEM
    case List => LIST
  }

  /** `ADD_ITEM`, `UPDATE_LIST`, …: the operation word, an underscore and
      the granularity word. */
  function OperationName(op: Op, g: Granularity): (n: string)
    ensures n == OpWord(op) + "_" + GranularityWord(g)
  {
    match (op, g)
    case (Add, Item) => "ADD_ITEM"
    case (Add, List) => "ADD_LIST"
    case (Update, Item) => "UPDATE_ITEM"
    case (Update, List) => "UPDATE_LIST"
    case (Delete, Item) => "DELETE_ITEM"
    case (Delete, List) => "DELETE_LIST"
  }

  function PhaseWord(phase: Phase): string {
    match phase
    case Started => STARTED
    case Succeeded => SUCCESS
    case Failed => FAILED
  }

  /** `prefix.ADD_ITEM`: the name an operation's thunk is registered under. */
  function OperationType(prefix: string, op: Op, g: Granularity): string {
    ComposeActionName(prefix, OperationName(op, g), None)
  }

  /** `prefix.ADD_ITEM_STARTED` and the like. */
  function LifecycleType(prefix: string, op: Op, g: Granularity, phase: Phase): string {
    ComposeActionName(prefix, OperationName(op, g), Some(PhaseWord(phase)))
  }

  /** The fixed action names every list reducer package uses. */
  datatype FixedAction =
    | SetTemp | SetSynced | SetSyncedWithClearTemp | AppendTempDict | AppendTempItem
    | ResetTemp | ResetSynced | ClearTemp | ClearSynced | ClearBoth | FinalizeTemp

  function FixedName(a: FixedAction): string {
    match a
    case SetTemp => SET_TEMP_DICT
    case SetSynced => SET_SYNCED_DICT
    case SetSyncedWithClearTemp => SET_SYNCED_DICT_WITH_CLEAR_TEMP
    case AppendTempDict => APPEND_TEMP_DICT
    case AppendTempItem => APPEND_TEMP_ITEM
    case ResetTemp => RESET_TEMP_DICT
    case ResetSynced => RESET_SYNCED_DICT
    case ClearTemp => CLEAR_TEMP_DICT
    case ClearSynced => CLEAR_SYNCED_DICT
    case ClearBoth => CLEAR_BOTH_DICT
    case FinalizeTemp => FINALIZE_TEMP_DICT
  }

  /** `withPrefix(NAME)` for a fixed action. */
  function FixedType(prefix: string, a: FixedAction): string {
    ComposeActionName(prefix, FixedName(a), None)
  }

  /** The suffixed operation name as one word, e.g. `ADD_ITEM_STARTED`. */
  function LifecycleWord(op: Op, g: Granularity, phase: Phase): string {
    OperationName(op, g) + "_" + PhaseWord(phase)
  }

  /** The literal names are pairwise distinct. */
  lemma FixedNamesDistinct(a: FixedAction, b: FixedAction)
    ensures FixedName(a) == FixedName(b) <==> a == b
  {
  }

  lemma LifecycleWordsDistinct(o1: Op, g1: Granularity, p1: Phase, o2: Op, g2: Granularity, p2: Phase)
    ensures LifecycleWord(o1, g1, p1) == LifecycleWord(o2, g2, p2) <==> o1 == o2 && g1 == g2 && p1 == p2
  {
    var w1, w2 := LifecycleWord(o1, g1, p1), LifecycleWord(o2, g2, p2);
    if w1 == w2 {
      assert w1[0] == OpWord(o1)[0] && w2[0] == OpWord(o2)[0];
      assert o1 == o2;
      var k := |OpWord(o1)| + 1;
      assert w1[k] == GranularityWord(g1)[0] && w2[k] == GranularityWord(g2)[0];
      assert g1 == g2;
      var n := |OperationName(o1, g1)| + 1;
      assert w1[n..] == PhaseWord(p1) && w2[n..] == PhaseWord(p2);
    }
  }

  /** Operation words begin `AD`, `UP` or `DE`; no fixed name does. */
  lemma LifecycleWordIsNoFixedName(op: Op, g: Granularity, phase: Phase, a: FixedAction)
    ensures LifecycleWord(op, g, phase) != FixedName(a)
    ensures OperationName(op, g) != FixedName(a)
  {
    var w := LifecycleWord(op, g, phase);
    var n := OperationName(op, g);
    assert w[0] == n[0] == OpWord(op)[0] && w[1] == n[1] == OpWord(op)[1];
    assert FixedName(a)[0] != OpWord(op)[0] || FixedName(a)[1] != OpWord(op)[1] by {
      match a
      case SetTemp =>
      case SetSynced =>
      case SetSyncedWithClearTemp =>
      case AppendTempDict =>
      case AppendTempItem =>
      case ResetTemp =>
      case ResetSynced =>
      case ClearTemp =>
      case ClearSynced =>
      case ClearBoth =>
      case FinalizeTemp =>
    }
  }

  /** Under one prefix the fixed types are pairwise distinct. */
  lemma FixedTypesDistinct(prefix: string, a: FixedAction, b: FixedAction)
    ensures FixedType(prefix, a) == FixedType(prefix, b) <==> a == b
  {
    ComposeActionNameInjective(prefix, FixedName(a), FixedName(b));
    FixedNamesDistinct(a, b);
  }

  /** Under one prefix, the eighteen lifecycle types are pairwise distinct
      and none of them is a fixed type or an operation's thunk name. */
  lemma LifecycleTypesDistinct(prefix: string, op: Op, g: Granularity, phase: Phase)
    ensures forall o2: Op, g2: Granularity, p2: Phase ::
              LifecycleType(prefix, op, g, phase) == LifecycleType(prefix, o2, g2, p2) <==>
              op == o2 && g == g2 && phase == p2
    ensures forall a :: LifecycleType(prefix, op, g, phase) != FixedType(prefix, a)
    ensures forall o2: Op, g2: Granularity :: LifecycleType(prefix, op, g, phase) != OperationType(prefix, o2, g2)
  {
    SuffixJoinsName(prefix, OperationName(op, g), Some(PhaseWord(phase)));
    forall o2: Op, g2: Granularity, p2: Phase
      ensures LifecycleType(prefix, op, g, phase) == LifecycleType(prefix, o2, g2, p2) <==>
              op == o2 && g == g2 && phase == p2
    {
      SuffixJoinsName(prefix, OperationName(o2, g2), Some(PhaseWord(p2)));
      ComposeActionNameInjective(prefix, LifecycleWord(op, g, phase), LifecycleWord(o2, g2, p2));
      LifecycleWordsDistinct(op, g, phase, o2, g2, p2);
    }
    forall a
      ensures LifecycleType(prefix, op, g, phase) != FixedType(prefix, a)
    {
      ComposeActionNameInjective(prefix, LifecycleWord(op, g, phase), FixedName(a));
      LifecycleWordIsNoFixedName(op, g, phase, a);
    }
    forall o2: Op, g2: Granularity
      ensures LifecycleType(prefix, op, g, phase) != OperationType(prefix, o2, g2)
    {
      ComposeActionNameInjective(prefix, LifecycleWord(op, g, phase), OperationName(o2, g2));
    }
  }

  /** The one case where the suffix does not keep types apart: an operation
      name that already ends in `_SUFFIX` collides with the suffixed type. */
  lemma SuffixedTypeMayCollide(prefix: string)
    ensures ComposeActionName(prefix, "GET_LIST", Some(SUCCESS)) == ComposeActionName(prefix, "GET_LIST_SUCCESS", None)
  {
    SuffixJoinsName(prefix, "GET_LIST", Some(SUCCESS));
  }
}
