/**
 * The memoising evaluator of configuration trees (`instantiate` and
 * `instantiate_node`).
 *
 * `Eval` is the reference definition: it maps a node and the evaluation state
 * (cache contents, constructor invocations so far, cache operations so far)
 * to the instantiated node and the new state. `Engine.InstantiateNode` is the
 * evaluator as the source runs it, on a mutable cache object, and is proved
 * to compute exactly `Eval`.
 */
module Hydra {
  import opened Wrappers
  import opened Config
  import opened HydraUtils
  import Memory

  /**
   * What the evaluator gets from outside: hydra's target resolution, the
   * not_deterministic side table, the constructor call (given the index of the
   * invocation in the run, so a constructor may answer differently each time),
   * the clock reading around invocation n, joblib.hash, and whether a mapping
   * node carries a structured-config type.
   */
  datatype Env = Env(
    resolve: Node -> Option<FuncId>,
    marks: map<FuncId, FuncInfo>,
    construct: (FuncId, seq<Value>, seq<Entry>, nat) -> Result<Value, string>,
    elapsed: nat -> int,
    hash: Value -> string,
    structured: Node -> bool)

  datatype EvalError =
    | RecursiveNotBool           // TypeError: _recursive_ flag must be a bool
    | UnresolvedTarget(target: Node)
    | ConstructionFailed(reason: string)
    | TopLevelNotDict            // InstantiationException on the top-level config
    | InvalidCacheArgument       // ValueError on the cache argument

  /** One call of the Cache interface, as a pluggable cache would see it. */
  datatype CacheOp = ContainsOp(key: Node) | GetItemOp(key: Node) | SetItemOp(key: Node, entry: Instantiated)

  /** One call of a target `f(*args, **kwargs)`. */
  datatype Invocation = Invocation(func: FuncId, args: seq<Value>, kwargs: seq<Entry>)

  datatype State = State(store: map<Node, Instantiated>, calls: seq<Invocation>, ops: seq<CacheOp>)

  /** What the arguments of a node have produced: constructor kwargs (or dict items) and child infos. */
  datatype Collected = Collected(entries: seq<Entry>, infos: seq<Keyed>)

  /** `convert` after the node's own `_convert_`, if it has one. */
  function NodeConvert(node: Node, convert: ConvertMode): ConvertMode {
    match Flag(node, CONVERT)
    case Some(v) => ModeOf(v)
    case None => convert
  }

  /** `recursive` after the node's own `_recursive_`, if it has one (still unchecked). */
  function NodeRecursive(node: Node, recursive: Node): Node {
    Flag(node, RECURSIVE).GetOr(recursive)
  }

  function AsBool(v: Node): Option<bool> {
    if v.Scalar? && v.atom.Bool? then Some(v.atom.b) else None
  }

  /** `InstantiatedNodeInfo.from_func(target, cache_result=node.get("_cache_result_", True))`. */
  function TargetInfo(env: Env, f: FuncId, node: Node): (r: NodeInfo)
    ensures r.notDeterministic <==> f in env.marks && env.marks[f].notDeterministic
    ensures r.cacheResult <==> Flag(node, CACHE_RESULT).None? || Truthy(Flag(node, CACHE_RESULT).value)
    ensures r.deterministicConfig.None? && r.timeTarget.None?
  {
    FromFunc(env.marks, f, match Flag(node, CACHE_RESULT) case Some(v) => Truthy(v) case None => true)
  }

  /** `key in cache`, recorded when a cache is active. */
  function Ask(on: bool, s: State, key: Node): State {
    if on then s.(ops := s.ops + [ContainsOp(key)]) else s
  }

  /** `cache[key]` after a successful `key in cache`. */
  function Fetch(s: State, key: Node): (Result<Instantiated, EvalError>, State)
    requires key in s.store
  {
    (Ok(s.store[key]), s.(ops := s.ops + [ContainsOp(key), GetItemOp(key)]))
  }

  function Indexed(done: seq<Instantiated>): (r: seq<Keyed>)
    ensures |r| == |done|
    ensures forall j :: 0 <= j < |r| ==> r[j] == Keyed(Index(j), done[j].info)
  {
    seq(|done|, j requires 0 <= j < |done| => Keyed(Index(j), done[j].info))
  }

  function Instances(done: seq<Instantiated>): (r: seq<Value>)
    ensures |r| == |done|
    ensures forall j :: 0 <= j < |r| ==> r[j] == done[j].instance
  {
    seq(|done|, j requires 0 <= j < |done| => done[j].instance)
  }

  /** `instantiate_node(node, *args, convert=convert, recursive=recursive, cache=cache)`. */
  function Eval(env: Env, on: bool, node: Node, args: seq<Value>, convert: ConvertMode, recursive: Node, s: State)
    : (r: (Result<Instantiated, EvalError>, State))
    ensures node.Scalar? ==> r == (Ok(Instantiated(Prim(node.atom), DefaultInfo)), s)
    ensures r.0.Ok? && !node.Call? ==> !r.0.value.info.notDeterministic && r.0.value.info.timeTarget.None?
    decreases node, 3
  {
    if node.Scalar? then (Ok(Instantiated(Prim(node.atom), DefaultInfo)), s)
    else
      var conv := NodeConvert(node, convert);
      match AsBool(NodeRecursive(node, recursive))
      case None => (Err(RecursiveNotBool), s)
      case Some(b) =>
        if node.Sequence? then EvalList(env, on, node, conv, b, s)
        else if node.Mapping? then EvalDict(env, on, node, conv, b, s)
        else EvalCall(env, on, node, args, conv, b, s)
  }

  /** Prepends the results of earlier children to those of the remaining ones. */
  function PrependDone(done: seq<Instantiated>, rest: (Result<seq<Instantiated>, EvalError>, State))
    : (Result<seq<Instantiated>, EvalError>, State)
  {
    match rest.0
    case Ok(more) => (Ok(done + more), rest.1)
    case Err(e) => (Err(e), rest.1)
  }

  lemma PrependDoneNil(rest: (Result<seq<Instantiated>, EvalError>, State))
    ensures PrependDone([], rest) == rest
  {
    if rest.0.Ok? {
      assert [] + rest.0.value == rest.0.value;
    }
  }

  lemma PrependDoneAppend(done: seq<Instantiated>, x: Instantiated, rest: (Result<seq<Instantiated>, EvalError>, State))
    ensures PrependDone(done, PrependDone([x], rest)) == PrependDone(done + [x], rest)
  {
    if rest.0.Ok? {
      assert done + ([x] + rest.0.value) == (done + [x]) + rest.0.value;
    }
  }

  /** The elements `items[i..]` of a list, each instantiated with no positional arguments. */
  function EvalItems(env: Env, on: bool, node: Node, i: nat, conv: ConvertMode, b: bool, s: State)
    : (out: (Result<seq<Instantiated>, EvalError>, State))
    requires node.Sequence? && i <= |node.items|
    ensures out.0.Ok? ==> |out.0.value| == |node.items| - i
    decreases node, 0, |node.items| - i
  {
    if i == |node.items| then (Ok([]), s)
    else
      var (r, s1) := Eval(env, on, node.items[i], [], conv, Scalar(Bool(b)), s);
      match r
      case Err(e) => (Err(e), s1)
      case Ok(x) => PrependDone([x], EvalItems(env, on, node, i + 1, conv, b, s1))
  }

  /** The list branch: elements always instantiated, combined by position, never cached themselves. */
  function EvalList(env: Env, on: bool, node: Node, conv: ConvertMode, b: bool, s: State)
    : (r: (Result<Instantiated, EvalError>, State))
    requires node.Sequence?
    ensures r.0.Ok? ==> !r.0.value.info.notDeterministic && r.0.value.info.timeTarget.None?
    ensures r.0.Ok? ==> var v := r.0.value.instance;
      && (if conv != NoConversion then v.PlainList? else v.ListConf?)
      && |v.elems| == |node.items|
    decreases node, 1
  {
    var (r, s1) := EvalItems(env, on, node, 0, conv, b, s);
    match r
    case Err(e) => (Err(e), s1)
    case Ok(done) =>
      var info := Combined(Indexed(done), Some(node), None, None).value;
      var items := Instances(done);
      (Ok(Instantiated(if conv != NoConversion then PlainList(items) else ListConf(items), info)), s1)
  }

  function PrependCollected(c: Collected, rest: (Result<Collected, EvalError>, State))
    : (Result<Collected, EvalError>, State)
  {
    match rest.0
    case Ok(more) => (Ok(Collected(c.entries + more.entries, c.infos + more.infos)), rest.1)
    case Err(e) => (Err(e), rest.1)
  }

  lemma PrependCollectedNil(rest: (Result<Collected, EvalError>, State))
    ensures PrependCollected(Collected([], []), rest) == rest
  {
    if rest.0.Ok? {
      assert [] + rest.0.value.entries == rest.0.value.entries;
      assert [] + rest.0.value.infos == rest.0.value.infos;
    }
  }

  lemma PrependCollectedAppend(c: Collected, d: Collected, rest: (Result<Collected, EvalError>, State))
    ensures PrependCollected(c, PrependCollected(d, rest))
         == PrependCollected(Collected(c.entries + d.entries, c.infos + d.infos), rest)
  {
    if rest.0.Ok? {
      assert c.entries + (d.entries + rest.0.value.entries) == (c.entries + d.entries) + rest.0.value.entries;
      assert c.infos + (d.infos + rest.0.value.infos) == (c.infos + d.infos) + rest.0.value.infos;
    }
  }

  /** The values `fields[i..]` of a plain mapping, every key included. */
  function EvalFields(env: Env, on: bool, node: Node, i: nat, conv: ConvertMode, b: bool, s: State)
    : (out: (Result<Collected, EvalError>, State))
    requires node.Mapping? && i <= |node.fields|
    ensures out.0.Ok? ==> AllFit(Dict, out.0.value.infos)
    ensures out.0.Ok? ==> |out.0.value.entries| == |node.fields| - i
    ensures out.0.Ok? ==> forall j :: 0 <= j < |out.0.value.entries| ==> out.0.value.entries[j].key == node.fields[i + j].key
    decreases node, 0, |node.fields| - i
  {
    if i == |node.fields| then (Ok(Collected([], [])), s)
    else
      var f := node.fields[i];
      var (r, s1) := Eval(env, on, f.value, [], conv, Scalar(Bool(b)), s);
      match r
      case Err(e) => (Err(e), s1)
      case Ok(x) =>
        PrependCollected(Collected([Entry(f.key, x.instance)], [Keyed(Name(f.key), x.info)]),
                         EvalFields(env, on, node, i + 1, conv, b, s1))
  }

  /**
   * The plain-mapping branch: a plain dict under "all", or under "partial" for
   * an unstructured mapping; a re-wrapped DictConfig otherwise.
   */
  function EvalDict(env: Env, on: bool, node: Node, conv: ConvertMode, b: bool, s: State)
    : (r: (Result<Instantiated, EvalError>, State))
    requires node.Mapping?
    ensures r.0.Ok? ==> !r.0.value.info.notDeterministic && r.0.value.info.timeTarget.None?
    ensures r.0.Ok? ==> var v := r.0.value.instance;
      && (v.PlainDict? || v.DictConf?)
      && |v.entries| == |node.fields|
      && forall j :: 0 <= j < |v.entries| ==> v.entries[j].key == node.fields[j].key
    decreases node, 1
  {
    var (r, s1) := EvalFields(env, on, node, 0, conv, b, s);
    match r
    case Err(e) => (Err(e), s1)
    case Ok(c) =>
      var info := Combined(c.infos, Some(node), None, None).value;
      var plain := conv == All || (conv == Partial && !env.structured(node));
      (Ok(Instantiated(if plain then PlainDict(c.entries) else DictConf(c.entries, env.structured(node)), info)), s1)
  }

  /**
   * The constructor kwargs from `fields[i..]` of a target node: reserved keys
   * skipped; each value instantiated when `b` (recursive) holds, passed raw
   * otherwise; then converted.
   */
  function EvalKwargs(env: Env, on: bool, node: Node, i: nat, conv: ConvertMode, b: bool, s: State)
    : (out: (Result<Collected, EvalError>, State))
    requires node.Call? && i <= |node.fields|
    ensures out.0.Ok? ==> AllFit(Dict, out.0.value.infos)
    decreases node, 0, |node.fields| - i
  {
    if i == |node.fields| then (Ok(Collected([], [])), s)
    else
      var f := node.fields[i];
      if Reserved(f.key) then EvalKwargs(env, on, node, i + 1, conv, b, s)
      else if b then
        var (r, s1) := Eval(env, on, f.value, [], conv, Scalar(Bool(b)), s);
        match r
        case Err(e) => (Err(e), s1)
        case Ok(x) =>
          PrependCollected(Collected([Entry(f.key, ConvertValue(x.instance, conv))], [Keyed(Name(f.key), x.info)]),
                           EvalKwargs(env, on, node, i + 1, conv, b, s1))
      else
        PrependCollected(Collected([Entry(f.key, ConvertValue(RawValue(f.value), conv))], []),
                         EvalKwargs(env, on, node, i + 1, conv, b, s))
  }

  /** Which way the evaluation of a target node goes. */
  datatype Route =
    | NodeHit
    | Unresolved(s0: State)
    | ArgsFailed(error: EvalError, s1: State)
    | SubstituteHit(key: Node, s1: State)
    | Invoke(func: FuncId, target: NodeInfo, args: Collected, key: Node, pre: Option<NodeInfo>, s1: State)

  /**
   * Everything of the target branch up to the constructor call: the lookup of
   * the node, the resolution of the target, the kwargs, and for a
   * deterministic target the info combined in advance and the lookup of its
   * substitute, which then becomes the cache key.
   */
  function CallRoute(env: Env, on: bool, node: Node, conv: ConvertMode, b: bool, s: State): (r: Route)
    requires node.Call?
    ensures r.NodeHit? ==> on && node in s.store
    ensures r.SubstituteHit? ==> on && r.key in r.s1.store
    decreases node, 1
  {
    if on && node in s.store then NodeHit
    else
      var s0 := Ask(on, s, node);
      match env.resolve(node.target)
      case None => Unresolved(s0)
      case Some(f) =>
        var ti := TargetInfo(env, f, node);
        var (r, s1) := EvalKwargs(env, on, node, 0, conv, b, s0);
        match r
        case Err(e) => ArgsFailed(e, s1)
        case Ok(c) => KeyRoute(on, node, f, ti, c, s1)
  }

  /**
   * The key under which a target node is cached, once its kwargs are known:
   * the node itself for a non-deterministic target or with no substitute,
   * otherwise the substitute, which is looked up first.
   */
  function KeyRoute(on: bool, node: Node, f: FuncId, ti: NodeInfo, c: Collected, s1: State): (r: Route)
    requires AllFit(Dict, c.infos)
    requires node.Call?
    ensures r.SubstituteHit? ==> on && r.key in r.s1.store
  {
    if ti.notDeterministic then Invoke(f, ti, c, node, None, s1)
    else
      var info := Combined(c.infos, Some(node), Some(ti), None).value;
      match info.deterministicConfig
      case None => Invoke(f, ti, c, node, Some(info), s1)
      case Some(sub) =>
        if on && sub in s1.store then SubstituteHit(sub, s1)
        else Invoke(f, ti, c, sub, Some(info), Ask(on, s1, sub))
  }

  /** The result of a target node, given the way its evaluation goes. */
  function Finish(env: Env, on: bool, node: Node, args: seq<Value>, route: Route, s: State)
    : (r: (Result<Instantiated, EvalError>, State))
    requires node.Call?
    requires route.NodeHit? ==> node in s.store
    requires route.SubstituteHit? ==> route.key in route.s1.store
    ensures route.NodeHit? ==> r.0 == Ok(s.store[node]) && r.1.calls == s.calls && r.1.store == s.store
    ensures route.SubstituteHit? ==>
      r.0 == Ok(route.s1.store[route.key]) && r.1.calls == route.s1.calls && r.1.store == route.s1.store
    ensures route.Invoke? ==> r.1.calls == route.s1.calls + [Invocation(route.func, args, route.args.entries)]
    ensures route.Unresolved? || route.ArgsFailed? ==> r.0.Err?
  {
    match route
    case NodeHit => Fetch(s, node)
    case Unresolved(s0) => (Err(UnresolvedTarget(node.target)), s0)
    case ArgsFailed(e, s1) => (Err(e), s1)
    case SubstituteHit(sub, s1) => Fetch(s1, sub)
    case Invoke(f, ti, c, key, pre, s1) => Invoked(env, on, node, args, f, ti, c, key, pre, s1)
  }

  /**
   * The constructor call and what follows it: the info of a non-deterministic
   * target is built from the hash of the result, the elapsed time is set, and
   * with an active cache and `cache_result` the result is stored under `key`
   * and, when `key` is not the node, under the node with `not_deterministic`.
   */
  function Invoked(env: Env, on: bool, node: Node, args: seq<Value>, f: FuncId, ti: NodeInfo, c: Collected,
                   key: Node, pre: Option<NodeInfo>, s1: State)
    : (r: (Result<Instantiated, EvalError>, State))
    ensures r.1.calls == s1.calls + [Invocation(f, args, c.entries)]
    ensures r.0.Ok? ==> r.0.value.info.timeTarget == Some(env.elapsed(|s1.calls|))
    ensures r.1.store.Keys <= s1.store.Keys + {key, node}
    ensures forall k :: k in s1.store && k != key && k != node ==> k in r.1.store && r.1.store[k] == s1.store[k]
    ensures !on || r.0.Err? ==> r.1.store == s1.store
  {
    var n := |s1.calls|;
    var s2 := s1.(calls := s1.calls + [Invocation(f, args, c.entries)]);
    match env.construct(f, args, c.entries, n)
    case Err(reason) => (Err(ConstructionFailed(reason)), s2)
    case Ok(v) =>
      var info0 := if pre.Some? then pre.value
                   else Combined(c.infos, None, Some(ti), Some(Placeholder(env.hash(v)))).value;
      var info := info0.(timeTarget := Some(env.elapsed(n)));
      var result := Instantiated(v, info);
      if on && info.cacheResult then
        if key != node then
          var second := Instantiated(v, info.(notDeterministic := true));
          (Ok(result), s2.(store := s2.store[key := result][node := second],
                           ops := s2.ops + [SetItemOp(key, result), SetItemOp(node, second)]))
        else
          (Ok(result), s2.(store := s2.store[key := result], ops := s2.ops + [SetItemOp(key, result)]))
      else (Ok(result), s2)
  }

  /** The target branch. */
  function EvalCall(env: Env, on: bool, node: Node, args: seq<Value>, conv: ConvertMode, b: bool, s: State)
    : (r: (Result<Instantiated, EvalError>, State))
    requires node.Call?
    ensures on && node in s.store ==> r == Fetch(s, node)
    ensures !(on && node in s.store) && env.resolve(node.target).None? ==>
      r == (Err(UnresolvedTarget(node.target)), Ask(on, s, node))
    decreases node, 2
  {
    Finish(env, on, node, args, CallRoute(env, on, node, conv, b, s), s)
  }

  /**
   * The evaluator on a mutable cache. `cache` is null when caching is
   * disabled; `calls` records every constructor invocation and `ops` every
   * call of the cache interface.
   */
  class Engine {
    const env: Env
    const cache: Memory.InMemoryCache?<Node, Instantiated>
    var calls: seq<Invocation>
    ghost var ops: seq<CacheOp>

    constructor (env: Env, cache: Memory.InMemoryCache?<Node, Instantiated>)
      ensures this.env == env && this.cache == cache && calls == [] && ops == []
    {
      this.env := env;
      this.cache := cache;
      calls := [];
      ops := [];
    }

    /** The evaluation state as `Eval` sees it. */
    ghost function Snapshot(): State
      reads this, cache
    {
      State(if cache != null then cache.store else map[], calls, ops)
    }

    /** `instantiate_node`. */
    method InstantiateNode(node: Node, args: seq<Value>, convert: ConvertMode, recursive: Node)
      returns (r: Result<Instantiated, EvalError>)
      modifies this, cache
      ensures (r, Snapshot()) == Eval(env, cache != null, node, args, convert, recursive, old(Snapshot()))
      decreases node, 3
    {
      if node.Scalar? {
        return Ok(Instantiated(Prim(node.atom), DefaultInfo));
      }
      var conv := NodeConvert(node, convert);
      var b := AsBool(NodeRecursive(node, recursive));
      if b.None? {
        return Err(RecursiveNotBool);
      }
      if node.Sequence? {
        r := InstantiateList(node, conv, b.value);
      } else if node.Mapping? {
        r := InstantiateDict(node, conv, b.value);
      } else {
        r := InstantiateCall(node, args, conv, b.value);
      }
    }

    /** The list branch, a comprehension over the elements. */
    method InstantiateList(node: Node, conv: ConvertMode, b: bool) returns (r: Result<Instantiated, EvalError>)
      requires node.Sequence?
      modifies this, cache
      ensures (r, Snapshot()) == EvalList(env, cache != null, node, conv, b, old(Snapshot()))
      decreases node, 1
    {
      var done := InstantiateItems(node, conv, b);
      if done.Err? {
        return Err(done.error);
      }
      var info := Combine(Indexed(done.value), Some(node), None, None);
      var items := Instances(done.value);
      r := Ok(Instantiated(if conv != NoConversion then PlainList(items) else ListConf(items), info.value));
    }

    /** The comprehension over the elements of a list. */
    method InstantiateItems(node: Node, conv: ConvertMode, b: bool) returns (r: Result<seq<Instantiated>, EvalError>)
      requires node.Sequence?
      modifies this, cache
      ensures (r, Snapshot()) == EvalItems(env, cache != null, node, 0, conv, b, old(Snapshot()))
      decreases node, 0
    {
      var done: seq<Instantiated> := [];
      var i := 0;
      PrependDoneNil(EvalItems(env, cache != null, node, 0, conv, b, Snapshot()));
      while i < |node.items|
        invariant 0 <= i <= |node.items|
        invariant EvalItems(env, cache != null, node, 0, conv, b, old(Snapshot()))
               == PrependDone(done, EvalItems(env, cache != null, node, i, conv, b, Snapshot()))
      {
        ghost var s := Snapshot();
        var x := InstantiateNode(node.items[i], [], conv, Scalar(Bool(b)));
        if x.Err? {
          assert EvalItems(env, cache != null, node, i, conv, b, s) == (Err(x.error), Snapshot());
          return Err(x.error);
        }
        assert EvalItems(env, cache != null, node, i, conv, b, s)
            == PrependDone([x.value], EvalItems(env, cache != null, node, i + 1, conv, b, Snapshot()));
        PrependDoneAppend(done, x.value, EvalItems(env, cache != null, node, i + 1, conv, b, Snapshot()));
        done := done + [x.value];
        i := i + 1;
      }
      assert done + [] == done;
      r := Ok(done);
    }

    /** The plain-mapping branch: every value instantiated into a dict or a DictConfig. */
    method InstantiateDict(node: Node, conv: ConvertMode, b: bool) returns (r: Result<Instantiated, EvalError>)
      requires node.Mapping?
      modifies this, cache
      ensures (r, Snapshot()) == EvalDict(env, cache != null, node, conv, b, old(Snapshot()))
      decreases node, 1
    {
      var c := InstantiateFields(node, conv, b);
      if c.Err? {
        return Err(c.error);
      }
      var info := Combine(c.value.infos, Some(node), None, None);
      var plain := conv == All || (conv == Partial && !env.structured(node));
      var entries := c.value.entries;
      r := Ok(Instantiated(if plain then PlainDict(entries) else DictConf(entries, env.structured(node)), info.value));
    }

    /** The comprehension over the items of a plain mapping. */
    method InstantiateFields(node: Node, conv: ConvertMode, b: bool) returns (r: Result<Collected, EvalError>)
      requires node.Mapping?
      modifies this, cache
      ensures (r, Snapshot()) == EvalFields(env, cache != null, node, 0, conv, b, old(Snapshot()))
      decreases node, 0
    {
      var items: seq<Entry> := [];
      var infos: seq<Keyed> := [];
      var i := 0;
      PrependCollectedNil(EvalFields(env, cache != null, node, 0, conv, b, Snapshot()));
      while i < |node.fields|
        invariant 0 <= i <= |node.fields|
        invariant EvalFields(env, cache != null, node, 0, conv, b, old(Snapshot()))
               == PrependCollected(Collected(items, infos), EvalFields(env, cache != null, node, i, conv, b, Snapshot()))
      {
        var f := node.fields[i];
        ghost var s := Snapshot();
        var x := InstantiateNode(f.value, [], conv, Scalar(Bool(b)));
        if x.Err? {
          assert EvalFields(env, cache != null, node, i, conv, b, s) == (Err(x.error), Snapshot());
          return Err(x.error);
        }
        var more := Collected([Entry(f.key, x.value.instance)], [Keyed(Name(f.key), x.value.info)]);
        assert EvalFields(env, cache != null, node, i, conv, b, s)
            == PrependCollected(more, EvalFields(env, cache != null, node, i + 1, conv, b, Snapshot()));
        PrependCollectedAppend(Collected(items, infos), more, EvalFields(env, cache != null, node, i + 1, conv, b, Snapshot()));
        items := items + more.entries;
        infos := infos + more.infos;
        i := i + 1;
      }
      assert items + [] == items && infos + [] == infos;
      r := Ok(Collected(items, infos));
    }

    /** The loop that fills `kwargs` (and `infos`) from the items of a target node. */
    method CollectKwargs(node: Node, conv: ConvertMode, b: bool) returns (r: Result<Collected, EvalError>)
      requires node.Call?
      modifies this, cache
      ensures (r, Snapshot()) == EvalKwargs(env, cache != null, node, 0, conv, b, old(Snapshot()))
      decreases node, 0
    {
      var kwargs: seq<Entry> := [];
      var infos: seq<Keyed> := [];
      var i := 0;
      PrependCollectedNil(EvalKwargs(env, cache != null, node, 0, conv, b, Snapshot()));
      while i < |node.fields|
        invariant 0 <= i <= |node.fields|
        invariant AllFit(Dict, infos)
        invariant EvalKwargs(env, cache != null, node, 0, conv, b, old(Snapshot()))
               == PrependCollected(Collected(kwargs, infos), EvalKwargs(env, cache != null, node, i, conv, b, Snapshot()))
      {
        var f := node.fields[i];
        if !Reserved(f.key) {
          if b {
            var x := InstantiateNode(f.value, [], conv, Scalar(Bool(b)));
            if x.Err? {
              return Err(x.error);
            }
            PrependCollectedAppend(Collected(kwargs, infos),
                                   Collected([Entry(f.key, ConvertValue(x.value.instance, conv))], [Keyed(Name(f.key), x.value.info)]),
                                   EvalKwargs(env, cache != null, node, i + 1, conv, b, Snapshot()));
            kwargs := kwargs + [Entry(f.key, ConvertValue(x.value.instance, conv))];
            infos := infos + [Keyed(Name(f.key), x.value.info)];
          } else {
            PrependCollectedAppend(Collected(kwargs, infos), Collected([Entry(f.key, ConvertValue(RawValue(f.value), conv))], []),
                                   EvalKwargs(env, cache != null, node, i + 1, conv, b, Snapshot()));
            assert infos + [] == infos;
            kwargs := kwargs + [Entry(f.key, ConvertValue(RawValue(f.value), conv))];
          }
        }
        i := i + 1;
      }
      assert kwargs + [] == kwargs && infos + [] == infos;
      r := Ok(Collected(kwargs, infos));
    }

    /** The target branch: lookups, kwargs, the constructor call and the cache writes. */
    method InstantiateCall(node: Node, args: seq<Value>, conv: ConvertMode, b: bool)
      returns (r: Result<Instantiated, EvalError>)
      requires node.Call?
      modifies this, cache
      ensures (r, Snapshot()) == EvalCall(env, cache != null, node, args, conv, b, old(Snapshot()))
      decreases node, 2
    {
      if cache != null {
        ops := ops + [ContainsOp(node)];
        var hit := cache.Contains(node);
        if hit {
          ops := ops + [GetItemOp(node)];
          var entry := cache.Get(node);
          assert Snapshot() == Fetch(old(Snapshot()), node).1;
          return Ok(entry.value);
        }
      }
      var f := env.resolve(node.target);
      if f.None? {
        return Err(UnresolvedTarget(node.target));
      }
      var ti := TargetInfo(env, f.value, node);
      var c := CollectKwargs(node, conv, b);
      if c.Err? {
        return Err(c.error);
      }
      r := InstantiateKeyed(node, args, f.value, ti, c.value);
    }

    /** The target branch once the kwargs are known: the cache key, its lookup and the invocation. */
    method InstantiateKeyed(node: Node, args: seq<Value>, f: FuncId, ti: NodeInfo, c: Collected)
      returns (r: Result<Instantiated, EvalError>)
      requires node.Call? && AllFit(Dict, c.infos)
      modifies this, cache
      ensures (r, Snapshot())
           == Finish(env, cache != null, node, args, KeyRoute(cache != null, node, f, ti, c, old(Snapshot())), old(Snapshot()))
    {
      var key := node;
      var pre: Option<NodeInfo> := None;
      if !ti.notDeterministic {
        var info := Combine(c.infos, Some(node), Some(ti), None);
        pre := Some(info.value);
        if info.value.deterministicConfig.Some? {
          var sub := info.value.deterministicConfig.value;
          if cache != null {
            ops := ops + [ContainsOp(sub)];
            var hit := cache.Contains(sub);
            if hit {
              ops := ops + [GetItemOp(sub)];
              var entry := cache.Get(sub);
              assert Snapshot() == Fetch(old(Snapshot()), sub).1;
              return Ok(entry.value);
            }
          }
          key := sub;
        }
      }
      r := Invoke(node, args, f, ti, c, key, pre);
    }

    /** The constructor call, the info of its result and the cache writes. */
    method Invoke(node: Node, args: seq<Value>, f: FuncId, ti: NodeInfo, c: Collected, key: Node, pre: Option<NodeInfo>)
      returns (r: Result<Instantiated, EvalError>)
      modifies this, cache
      ensures (r, Snapshot()) == Invoked(env, cache != null, node, args, f, ti, c, key, pre, old(Snapshot()))
    {
      var n := |calls|;
      calls := calls + [Invocation(f, args, c.entries)];
      var result := env.construct(f, args, c.entries, n);
      if result.Err? {
        return Err(ConstructionFailed(result.error));
      }
      var info: NodeInfo;
      if pre.Some? {
        info := pre.value;
      } else {
        var combined := Combine(c.infos, None, Some(ti), Some(Placeholder(env.hash(result.value))));
        info := combined.value;
      }
      info := info.(timeTarget := Some(env.elapsed(n)));
      var instantiated := Instantiated(result.value, info);
      if cache != null && info.cacheResult {
        ops := ops + [SetItemOp(key, instantiated)];
        cache.Set(key, instantiated);
        if key != node {
          var second := Instantiated(result.value, info.(notDeterministic := true));
          ops := ops + [SetItemOp(node, second)];
          cache.Set(node, second);
          assert ops == old(ops) + [SetItemOp(key, instantiated), SetItemOp(node, second)];
        }
      }
      r := Ok(instantiated);
    }
  }

  /** The string that switches caching off. */
  const DONT_CACHE := "DISABLED"

  /** The `cache` argument of `instantiate`. */
  datatype CacheArg =
    | DefaultCache                                        // None: a fresh in-memory cache
    | Named(name: string)                                 // a string, of which only DONT_CACHE is accepted
    | Given(cache: Memory.InMemoryCache<Node, Instantiated>)
    | Other                                               // anything else

  /** The top-level config after `_recursive_` (default true) and `_convert_` (default none) are popped. */
  function Prepare(config: Node): (r: (Node, Node, ConvertMode))
    requires config.Mapping? || config.Call?
    ensures r.0.Call? == config.Call?
    ensures Flag(r.0, RECURSIVE) == None && Flag(r.0, CONVERT) == None
    ensures r.1 == Flag(config, RECURSIVE).GetOr(Scalar(Bool(true)))
    ensures r.2 == match Flag(config, CONVERT) case Some(v) => ModeOf(v) case None => NoConversion
    ensures config.Call? ==> r.0.target == config.target
    ensures forall k :: k != RECURSIVE && k != CONVERT ==> Flag(r.0, k) == Flag(config, k)
  {
    var (n1, rec) := Pop(config, RECURSIVE);
    var (n2, conv) := Pop(n1, CONVERT);
    PopFlag(config, RECURSIVE, CONVERT);
    PopFlag(n1, CONVERT, RECURSIVE);
    PopOthers(config, RECURSIVE);
    PopOthers(n1, CONVERT);
    (n2, rec.GetOr(Scalar(Bool(true))), match conv case Some(v) => ModeOf(v) case None => NoConversion)
  }

  /** The instance of an evaluation result, or its error. */
  function InstanceOf(r: Result<Instantiated, EvalError>): Result<Value, EvalError> {
    match r
    case Ok(x) => Ok(x.instance)
    case Err(e) => Err(e)
  }

  /** `instantiate(config, *args, cache=cache)` on a config that is a node, None, or of another kind. */
  method Instantiate(env: Env, config: Option<Node>, args: seq<Value>, cacheArg: CacheArg)
    returns (r: Result<Value, EvalError>)
    requires config.Some? ==> WellFormed(config.value)
    modifies if cacheArg.Given? then {cacheArg.cache} else {}
    ensures config.None? ==> r == Ok(Prim(Null))
    ensures config.Some? && !(config.value.Mapping? || config.value.Call?) ==> r == Err(TopLevelNotDict)
    ensures config.Some? && (config.value.Mapping? || config.value.Call?) ==>
      var (node, rec, conv) := Prepare(config.value);
      match cacheArg
      case DefaultCache => r == InstanceOf(Eval(env, true, node, args, conv, rec, State(map[], [], [])).0)
      case Named(name) =>
        r == if name == DONT_CACHE then InstanceOf(Eval(env, false, node, args, conv, rec, State(map[], [], [])).0)
             else Err(InvalidCacheArgument)
      case Given(c) =>
        var out := Eval(env, true, node, args, conv, rec, State(old(c.store), [], []));
        r == InstanceOf(out.0) && c.store == out.1.store
      case Other => r == Err(InvalidCacheArgument)
  {
    if config.None? {
      return Ok(Prim(Null));
    }
    if !(config.value.Mapping? || config.value.Call?) {
      return Err(TopLevelNotDict);
    }
    var (node, rec, conv) := Prepare(config.value);
    var cache: Memory.InMemoryCache?<Node, Instantiated>;
    match cacheArg {
      case DefaultCache =>
        cache := new Memory.InMemoryCache(false);
      case Named(name) =>
        if name != DONT_CACHE {
          return Err(InvalidCacheArgument);
        }
        cache := null;
      case Given(c) =>
        cache := c;
      case Other =>
        return Err(InvalidCacheArgument);
    }
    var engine := new Engine(env, cache);
    var out := engine.InstantiateNode(node, args, conv, rec);
    r := InstanceOf(out);
  }
}
