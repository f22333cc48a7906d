/**
 * Per-node metadata of an instantiation (InstantiatedNodeInfo), how the
 * metadata of a node's children is combined into the node's own, and the side
 * table that marks callables as not deterministic (FuncInfo).
 */
module HydraUtils {
  import opened Wrappers
  import opened Config

  /** The identity of a Python callable. */
  type FuncId = nat

  /** What is attached to a callable; only the `not_deterministic` mark exists. */
  datatype FuncInfo = FuncInfo(notDeterministic: bool)

  /**
   * `notDeterministic` describes the node's own target only; a dependency on a
   * non-deterministic descendant shows in `deterministicConfig` instead.
   * `timeTarget` is the measured duration of the target call.
   */
  datatype NodeInfo = NodeInfo(
    notDeterministic: bool,
    cacheResult: bool,
    deterministicConfig: Option<Node>,
    timeTarget: Option<int>)

  const DefaultInfo := NodeInfo(false, true, None, None)

  /** The result of instantiating a node (InstantiatedNode). */
  datatype Instantiated = Instantiated(instance: Value, info: NodeInfo)

  /** One entry of the `infos` dict handed to `combine`: a child's position and its metadata. */
  datatype Keyed = Keyed(key: Key, info: NodeInfo)

  /** The assertion `combine` makes when neither a parent config nor a deterministic config is given. */
  datatype CombineError = MissingParentConfig

  predicate AllFit(shape: Shape, infos: seq<Keyed>) {
    forall j :: 0 <= j < |infos| ==> Fits(shape, infos[j].key)
  }

  /** `all(info.cache_result for info in infos_list)`. */
  predicate AllCacheResult(infos: seq<Keyed>) {
    forall j :: 0 <= j < |infos| ==> infos[j].info.cacheResult
  }

  /**
   * The deterministic substitute built from `parent`: absent until a child
   * with a substitute is met; then a copy of `parent` whose entry at that
   * child's position is the child's substitute, and so on for later children.
   */
  function Substituted(parent: Node, infos: seq<Keyed>): (r: Option<Node>)
    requires AllFit(ShapeOf(parent), infos)
    ensures r.Some? ==> ShapeOf(r.value) == ShapeOf(parent)
    ensures r.Some? && parent.Call? ==> r.value.Call?
    decreases |infos|
  {
    if |infos| == 0 then None
    else
      var acc := Substituted(parent, infos[..|infos| - 1]);
      var last := infos[|infos| - 1];
      match last.info.deterministicConfig
      case None => acc
      case Some(d) => Some(Assign(acc.GetOr(parent), last.key, d))
  }

  /** InstantiatedNodeInfo.combine. */
  function Combined(infos: seq<Keyed>, parent: Option<Node>, target: Option<NodeInfo>, det: Option<Node>)
    : (r: Result<NodeInfo, CombineError>)
    requires det.None? && parent.Some? ==> AllFit(ShapeOf(parent.value), infos)
    ensures r.Err? <==> det.None? && parent.None?
    ensures r.Ok? ==> r.value.timeTarget.None?
    ensures r.Ok? ==> (r.value.notDeterministic <==> target.Some? && target.value.notDeterministic)
    ensures r.Ok? ==> (r.value.cacheResult <==>
                       (forall j :: 0 <= j < |infos| ==> infos[j].info.cacheResult) &&
                       (target.Some? ==> target.value.cacheResult))
    ensures r.Ok? && det.Some? ==> r.value.deterministicConfig == det
    ensures r.Ok? && det.None? ==> r.value.deterministicConfig == Substituted(parent.value, infos)
  {
    if det.None? && parent.None? then Err(MissingParentConfig)
    else
      var config := if det.Some? then det else Substituted(parent.value, infos);
      Ok(NodeInfo(
        target.Some? && target.value.notDeterministic,
        AllCacheResult(infos) && (target.None? || target.value.cacheResult),
        config,
        None))
  }

  /**
   * `combine` as the source runs it: the substitute is built by a loop that
   * copies the parent at the first child that has a substitute and then
   * assigns into that copy.
   */
  method Combine(infos: seq<Keyed>, parent: Option<Node>, target: Option<NodeInfo>, det: Option<Node>)
    returns (r: Result<NodeInfo, CombineError>)
    requires det.None? && parent.Some? ==> AllFit(ShapeOf(parent.value), infos)
    ensures r == Combined(infos, parent, target, det)
  {
    var config := det;
    if config.None? {
      if parent.None? {
        return Err(MissingParentConfig);
      }
      var i := 0;
      while i < |infos|
        invariant 0 <= i <= |infos|
        invariant config == Substituted(parent.value, infos[..i])
      {
        assert infos[..i + 1][..i] == infos[..i];
        var child := infos[i];
        if child.info.deterministicConfig.Some? {
          if config.None? {
            config := Some(parent.value);
          }
          config := Some(Assign(config.value, child.key, child.info.deterministicConfig.value));
        }
        i := i + 1;
      }
      assert infos[..i] == infos;
    }
    var notDeterministic := false;
    var cacheResult := AllCacheResult(infos);
    if target.Some? {
      notDeterministic := target.value.notDeterministic;
      cacheResult := cacheResult && target.value.cacheResult;
    }
    r := Ok(NodeInfo(notDeterministic, cacheResult, config, None));
  }

  /** The substitute is absent exactly when no child has one. */
  lemma {:induction false} SubstitutedAbsent(parent: Node, infos: seq<Keyed>)
    requires AllFit(ShapeOf(parent), infos)
    ensures Substituted(parent, infos).None? <==>
            forall j :: 0 <= j < |infos| ==> infos[j].info.deterministicConfig.None?
  {
    if |infos| > 0 {
      var init := infos[..|infos| - 1];
      SubstitutedAbsent(parent, init);
      assert forall j :: 0 <= j < |init| ==> init[j] == infos[j];
    }
  }

  /** The keys of `infos` are pairwise different, as the keys of a dict are. */
  predicate DistinctKeys(infos: seq<Keyed>) {
    forall i, j :: 0 <= i < j < |infos| ==> infos[i].key != infos[j].key
  }

  /** In the substitute, the position of every child that has a substitute holds that substitute. */
  lemma {:induction false} SubstitutedReplaces(parent: Node, infos: seq<Keyed>, j: nat)
    requires AllFit(ShapeOf(parent), infos) && DistinctKeys(infos)
    requires j < |infos| && infos[j].info.deterministicConfig.Some?
    ensures Substituted(parent, infos).Some?
    ensures Item(Substituted(parent, infos).value, infos[j].key) == infos[j].info.deterministicConfig
    decreases |infos|
  {
    var init := infos[..|infos| - 1];
    var last := infos[|infos| - 1];
    assert forall i :: 0 <= i < |init| ==> init[i] == infos[i];
    if j == |infos| - 1 {
      var acc := Substituted(parent, init);
      AssignItem(acc.GetOr(parent), last.key, last.key, last.info.deterministicConfig.value);
    } else {
      SubstitutedReplaces(parent, init, j);
      if last.info.deterministicConfig.Some? {
        var acc := Substituted(parent, init);
        AssignItem(acc.value, last.key, infos[j].key, last.info.deterministicConfig.value);
      }
    }
  }

  /** Every position no child with a substitute sits at is the parent's entry, unchanged. */
  lemma {:induction false} SubstitutedKeeps(parent: Node, infos: seq<Keyed>, key: Key)
    requires AllFit(ShapeOf(parent), infos)
    requires forall j :: 0 <= j < |infos| && infos[j].key == key ==> infos[j].info.deterministicConfig.None?
    requires Substituted(parent, infos).Some?
    ensures Item(Substituted(parent, infos).value, key) == Item(parent, key)
    decreases |infos|
  {
    var init := infos[..|infos| - 1];
    var last := infos[|infos| - 1];
    assert forall i :: 0 <= i < |init| ==> init[i] == infos[i];
    var acc := Substituted(parent, init);
    if acc.Some? {
      SubstitutedKeeps(parent, init, key);
    }
    if last.info.deterministicConfig.Some? {
      AssignItem(acc.GetOr(parent), last.key, key, last.info.deterministicConfig.value);
    }
  }

  /** The flag `cache_result` of a combination: false as soon as one child or the target says false. */
  lemma CombinedCacheResult(infos: seq<Keyed>, parent: Option<Node>, target: Option<NodeInfo>, det: Option<Node>, j: nat)
    requires det.None? && parent.Some? ==> AllFit(ShapeOf(parent.value), infos)
    requires det.Some? || parent.Some?
    requires j < |infos| && !infos[j].info.cacheResult
    ensures Combined(infos, parent, target, det).Ok?
    ensures !Combined(infos, parent, target, det).value.cacheResult
  {
  }

  /** `FuncInfo.from_func`: the info attached to `f`, or `FuncInfo()` when none is. */
  function FuncInfoOf(table: map<FuncId, FuncInfo>, f: FuncId): (r: FuncInfo)
    ensures f !in table ==> !r.notDeterministic
    ensures f in table ==> r == table[f]
  {
    if f in table then table[f] else FuncInfo(false)
  }

  /** `InstantiatedNodeInfo.from_func_info`: an explicit `not_deterministic` wins over the FuncInfo's. */
  function FromFuncInfo(info: FuncInfo, notDeterministic: Option<bool> := None, cacheResult: bool := true)
    : (r: NodeInfo)
    ensures r.notDeterministic == (if notDeterministic.Some? then notDeterministic.value else info.notDeterministic)
    ensures r.cacheResult == cacheResult
    ensures r.deterministicConfig.None? && r.timeTarget.None?
  {
    NodeInfo(notDeterministic.GetOr(info.notDeterministic), cacheResult, None, None)
  }

  /** `InstantiatedNodeInfo.from_func`. */
  function FromFunc(table: map<FuncId, FuncInfo>, f: FuncId, cacheResult: bool := true): (r: NodeInfo)
    ensures r.notDeterministic <==> f in table && table[f].notDeterministic
    ensures r.cacheResult == cacheResult && r.deterministicConfig.None? && r.timeTarget.None?
  {
    FromFuncInfo(FuncInfoOf(table, f), None, cacheResult)
  }

  /**
   * The attribute `__info` that callables carry, kept as a side table from
   * callable to FuncInfo.
   */
  class FuncTable {
    var attrs: map<FuncId, FuncInfo>

    constructor ()
      ensures attrs == map[]
    {
      attrs := map[];
    }

    /** `FuncInfo.to_func`: attaches `info` to `f`; an existing attribute is overwritten with a warning. */
    method ToFunc(info: FuncInfo, f: FuncId) returns (warned: bool)
      modifies this
      ensures attrs == old(attrs)[f := info]
      ensures warned <==> f in old(attrs)
    {
      warned := f in attrs;
      attrs := attrs[f := info];
    }

    /** The `@not_deterministic` decorator: marks `f` and returns it. */
    method NotDeterministic(f: FuncId) returns (g: FuncId)
      modifies this
      ensures g == f
      ensures attrs == old(attrs)[f := FuncInfo(true)]
      ensures FuncInfoOf(attrs, f).notDeterministic
    {
      var _ := ToFunc(FuncInfo(true), f);
      g := f;
    }
  }
}
