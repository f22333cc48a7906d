/**
 * Properties of the memoising evaluator, stated on the reference definition
 * `Hydra.Eval` (which `Hydra.Engine.InstantiateNode` is proved to compute).
 */
module HydraProofs {
  import opened Wrappers
  import opened Config
  import opened HydraUtils
  import opened Hydra

  /** No constructor ever receives one of the reserved keys as a keyword argument. */
  predicate NoReserved(kwargs: seq<Entry>) {
    forall e :: e in kwargs ==> !Reserved(e.key)
  }

  /** A stored result that went through a constructor call with `cache_result` set. */
  predicate Stored(x: Instantiated) {
    x.info.cacheResult && x.info.timeTarget.Some?
  }

  /**
   * What an evaluation step may do to the state: invocations and cache
   * operations are only appended, keys are never removed, a disabled cache
   * is never touched, every entry it adds or replaces comes from an
   * invocation with `cache_result` and is keyed by a target node, every
   * cache operation is about a target node, and no new invocation receives
   * a reserved key.
   */
  ghost predicate Extends(on: bool, s: State, t: State) {
    && s.calls <= t.calls
    && s.ops <= t.ops
    && s.store.Keys <= t.store.Keys
    && (!on ==> t.store == s.store && t.ops == s.ops)
    && (forall k :: k in t.store && (k !in s.store || t.store[k] != s.store[k]) ==> Stored(t.store[k]) && k.Call?)
    && (forall j :: |s.ops| <= j < |t.ops| ==> t.ops[j].key.Call?)
    && (forall j :: |s.calls| <= j < |t.calls| ==> NoReserved(t.calls[j].kwargs))
  }

  /** Positional arguments reach only the invocation of the outermost node, the last one made. */
  ghost predicate Positional(s: State, t: State, args: seq<Value>) {
    forall j :: |s.calls| <= j < |t.calls| ==>
      t.calls[j].args == [] || (j == |t.calls| - 1 && t.calls[j].args == args)
  }

  lemma ExtendsTrans(on: bool, s: State, t: State, u: State)
    requires Extends(on, s, t) && Extends(on, t, u)
    ensures Extends(on, s, u)
  {
    forall j | |s.calls| <= j < |u.calls|
      ensures NoReserved(u.calls[j].kwargs)
    {
      if j < |t.calls| {
        assert u.calls[j] == t.calls[j];
      }
    }
    forall j | |s.ops| <= j < |u.ops|
      ensures u.ops[j].key.Call?
    {
      if j < |t.ops| {
        assert u.ops[j] == t.ops[j];
      }
    }
  }

  lemma PositionalTrans(s: State, t: State, u: State, args: seq<Value>)
    requires s.calls <= t.calls <= u.calls
    requires Positional(s, t, []) && Positional(t, u, args)
    ensures Positional(s, u, args)
  {
    forall j | |s.calls| <= j < |u.calls|
      ensures u.calls[j].args == [] || (j == |u.calls| - 1 && u.calls[j].args == args)
    {
      if j < |t.calls| {
        assert u.calls[j] == t.calls[j];
      }
    }
  }

  lemma {:induction false} EvalExtends(env: Env, on: bool, node: Node, args: seq<Value>, convert: ConvertMode,
                                       recursive: Node, s: State)
    ensures var t := Eval(env, on, node, args, convert, recursive, s).1;
            Extends(on, s, t) && Positional(s, t, args)
    decreases node, 3
  {
    if !node.Scalar? {
      var conv := NodeConvert(node, convert);
      match AsBool(NodeRecursive(node, recursive))
      case None =>
      case Some(b) =>
        if node.Sequence? {
          ItemsExtends(env, on, node, 0, conv, b, s);
        } else if node.Mapping? {
          FieldsExtends(env, on, node, 0, conv, b, s);
        } else {
          CallExtends(env, on, node, args, conv, b, s);
        }
    }
  }

  lemma {:induction false} ItemsExtends(env: Env, on: bool, node: Node, i: nat, conv: ConvertMode, b: bool, s: State)
    requires node.Sequence? && i <= |node.items|
    ensures var t := EvalItems(env, on, node, i, conv, b, s).1;
            Extends(on, s, t) && Positional(s, t, [])
    decreases node, 0, |node.items| - i
  {
    if i < |node.items| {
      var (r, s1) := Eval(env, on, node.items[i], [], conv, Scalar(Bool(b)), s);
      EvalExtends(env, on, node.items[i], [], conv, Scalar(Bool(b)), s);
      if r.Ok? {
        var t := EvalItems(env, on, node, i + 1, conv, b, s1).1;
        ItemsExtends(env, on, node, i + 1, conv, b, s1);
        ExtendsTrans(on, s, s1, t);
        PositionalTrans(s, s1, t, []);
      }
    }
  }

  lemma {:induction false} FieldsExtends(env: Env, on: bool, node: Node, i: nat, conv: ConvertMode, b: bool, s: State)
    requires node.Mapping? && i <= |node.fields|
    ensures var t := EvalFields(env, on, node, i, conv, b, s).1;
            Extends(on, s, t) && Positional(s, t, [])
    decreases node, 0, |node.fields| - i
  {
    if i < |node.fields| {
      var (r, s1) := Eval(env, on, node.fields[i].value, [], conv, Scalar(Bool(b)), s);
      EvalExtends(env, on, node.fields[i].value, [], conv, Scalar(Bool(b)), s);
      if r.Ok? {
        var t := EvalFields(env, on, node, i + 1, conv, b, s1).1;
        FieldsExtends(env, on, node, i + 1, conv, b, s1);
        ExtendsTrans(on, s, s1, t);
        PositionalTrans(s, s1, t, []);
      }
    }
  }

  /** Besides extending the state, the kwargs never hold a reserved key. */
  lemma {:induction false} KwargsExtends(env: Env, on: bool, node: Node, i: nat, conv: ConvertMode, b: bool, s: State)
    requires node.Call? && i <= |node.fields|
    ensures var (r, t) := EvalKwargs(env, on, node, i, conv, b, s);
            Extends(on, s, t) && Positional(s, t, []) && (r.Ok? ==> NoReserved(r.value.entries))
    decreases node, 0, |node.fields| - i
  {
    if i < |node.fields| {
      var f := node.fields[i];
      if Reserved(f.key) {
        KwargsExtends(env, on, node, i + 1, conv, b, s);
      } else if b {
        var (r, s1) := Eval(env, on, f.value, [], conv, Scalar(Bool(b)), s);
        EvalExtends(env, on, f.value, [], conv, Scalar(Bool(b)), s);
        if r.Ok? {
          var t := EvalKwargs(env, on, node, i + 1, conv, b, s1).1;
          KwargsExtends(env, on, node, i + 1, conv, b, s1);
          ExtendsTrans(on, s, s1, t);
          PositionalTrans(s, s1, t, []);
        }
      } else {
        KwargsExtends(env, on, node, i + 1, conv, b, s);
      }
    }
  }

  lemma InvokedExtends(env: Env, on: bool, node: Node, args: seq<Value>, f: FuncId, ti: NodeInfo, c: Collected,
                       key: Node, pre: Option<NodeInfo>, s1: State)
    requires NoReserved(c.entries) && node.Call? && key.Call?
    ensures var t := Invoked(env, on, node, args, f, ti, c, key, pre, s1).1;
            Extends(on, s1, t) && Positional(s1, t, args)
  {
  }

  lemma KeyedExtends(env: Env, on: bool, node: Node, args: seq<Value>, f: FuncId, ti: NodeInfo, c: Collected, s1: State)
    requires node.Call? && AllFit(Dict, c.infos) && NoReserved(c.entries)
    ensures var t := Finish(env, on, node, args, KeyRoute(on, node, f, ti, c, s1), s1).1;
            Extends(on, s1, t) && Positional(s1, t, args)
  {
    match KeyRoute(on, node, f, ti, c, s1)
    case SubstituteHit(_, _) =>
    case Invoke(_, _, _, key, pre, s2) =>
      assert Extends(on, s1, s2) && s1.calls == s2.calls;
      InvokedExtends(env, on, node, args, f, ti, c, key, pre, s2);
      ExtendsTrans(on, s1, s2, Invoked(env, on, node, args, f, ti, c, key, pre, s2).1);
  }

  lemma {:induction false} CallExtends(env: Env, on: bool, node: Node, args: seq<Value>, conv: ConvertMode, b: bool,
                                       s: State)
    requires node.Call?
    ensures var t := EvalCall(env, on, node, args, conv, b, s).1;
            Extends(on, s, t) && Positional(s, t, args)
    decreases node, 2
  {
    if !(on && node in s.store) {
      var s0 := Ask(on, s, node);
      assert Extends(on, s, s0);
      match env.resolve(node.target)
      case None =>
      case Some(f) =>
        var (r, s1) := EvalKwargs(env, on, node, 0, conv, b, s0);
        KwargsExtends(env, on, node, 0, conv, b, s0);
        ExtendsTrans(on, s, s0, s1);
        if r.Ok? {
          var ti := TargetInfo(env, f, node);
          var route := KeyRoute(on, node, f, ti, r.value, s1);
          assert CallRoute(env, on, node, conv, b, s) == route;
          var t := Finish(env, on, node, args, route, s1).1;
          assert EvalCall(env, on, node, args, conv, b, s).1 == t;
          KeyedExtends(env, on, node, args, f, ti, r.value, s1);
          ExtendsTrans(on, s, s1, t);
          PositionalTrans(s, s1, t, args);
        }
    }
  }

  /**
   * Lists and plain mappings are never looked up or stored themselves: every
   * cache operation their evaluation makes is about a target node inside
   * them, and their own entry in the store, if there is one, stays as it was.
   */
  lemma ContainerNotCached(env: Env, on: bool, node: Node, args: seq<Value>, convert: ConvertMode, recursive: Node,
                           s: State)
    requires node.Sequence? || node.Mapping?
    ensures var t := Eval(env, on, node, args, convert, recursive, s).1;
            && (forall j :: |s.ops| <= j < |t.ops| ==> t.ops[j].key != node)
            && (node in t.store <==> node in s.store)
            && (node in s.store ==> t.store[node] == s.store[node])
  {
    EvalExtends(env, on, node, args, convert, recursive, s);
  }

  /** A list or mapping whose children are all leaves. */
  predicate LeafContainer(node: Node) {
    || (node.Sequence? && forall i :: 0 <= i < |node.items| ==> node.items[i].Scalar?)
    || (node.Mapping? && forall i :: 0 <= i < |node.fields| ==> node.fields[i].value.Scalar?)
  }

  /** A container of leaves is evaluated without touching the state: no cache operation, no invocation. */
  lemma LeafContainerUntouched(env: Env, on: bool, node: Node, args: seq<Value>, convert: ConvertMode,
                               recursive: Node, s: State)
    requires LeafContainer(node)
    ensures Eval(env, on, node, args, convert, recursive, s).1 == s
  {
    var conv := NodeConvert(node, convert);
    match AsBool(NodeRecursive(node, recursive))
    case None =>
    case Some(b) =>
      if node.Sequence? {
        LeafItems(env, on, node, 0, conv, b, s);
      } else {
        LeafFields(env, on, node, 0, conv, b, s);
      }
  }

  lemma {:induction false} LeafItems(env: Env, on: bool, node: Node, i: nat, conv: ConvertMode, b: bool, s: State)
    requires node.Sequence? && i <= |node.items| && LeafContainer(node)
    ensures EvalItems(env, on, node, i, conv, b, s).1 == s
    decreases |node.items| - i
  {
    if i < |node.items| {
      LeafItems(env, on, node, i + 1, conv, b, s);
    }
  }

  lemma {:induction false} LeafFields(env: Env, on: bool, node: Node, i: nat, conv: ConvertMode, b: bool, s: State)
    requires node.Mapping? && i <= |node.fields| && LeafContainer(node)
    ensures EvalFields(env, on, node, i, conv, b, s).1 == s
    decreases |node.fields| - i
  {
    if i < |node.fields| {
      LeafFields(env, on, node, i + 1, conv, b, s);
    }
  }

  /** A target node already in an active cache is answered from it: no invocation, the store unchanged. */
  lemma CacheHit(env: Env, node: Node, args: seq<Value>, convert: ConvertMode, recursive: Node, s: State)
    requires node.Call? && node in s.store
    requires AsBool(NodeRecursive(node, recursive)).Some?
    ensures Eval(env, true, node, args, convert, recursive, s)
         == (Ok(s.store[node]), s.(ops := s.ops + [ContainsOp(node), GetItemOp(node)]))
  {
    var conv := NodeConvert(node, convert);
    var b := AsBool(NodeRecursive(node, recursive)).value;
    assert CallRoute(env, true, node, conv, b, s) == NodeHit;
    assert Eval(env, true, node, args, convert, recursive, s) == EvalCall(env, true, node, args, conv, b, s);
  }

  /** A container node whose `_recursive_` is not a bool is rejected before anything is evaluated. */
  lemma RecursiveNotBoolRejected(env: Env, on: bool, node: Node, args: seq<Value>, convert: ConvertMode,
                                 recursive: Node, s: State)
    requires !node.Scalar?
    requires AsBool(NodeRecursive(node, recursive)).None?
    ensures Eval(env, on, node, args, convert, recursive, s) == (Err(RecursiveNotBool), s)
  {
  }

  /** The names of the fields that become kwargs, in order. */
  function KwargNames(fields: seq<Field>): (r: seq<string>)
    ensures |r| <= |fields|
  {
    if |fields| == 0 then []
    else if Reserved(fields[0].key) then KwargNames(fields[1..])
    else [fields[0].key] + KwargNames(fields[1..])
  }

  function EntryKeys(entries: seq<Entry>): (r: seq<string>)
    ensures |r| == |entries|
    ensures forall j :: 0 <= j < |r| ==> r[j] == entries[j].key
  {
    if |entries| == 0 then [] else [entries[0].key] + EntryKeys(entries[1..])
  }

  /** The kwargs are the non-reserved fields of the node, in the node's order, whether or not recursive. */
  lemma {:induction false} KwargsKeys(env: Env, on: bool, node: Node, i: nat, conv: ConvertMode, b: bool, s: State)
    requires node.Call? && i <= |node.fields|
    ensures var r := EvalKwargs(env, on, node, i, conv, b, s).0;
            r.Ok? ==> EntryKeys(r.value.entries) == KwargNames(node.fields[i..])
    decreases |node.fields| - i
  {
    if i < |node.fields| {
      assert node.fields[i..][1..] == node.fields[i + 1..];
      KwargsKeys(env, on, node, i + 1, conv, b, s);
      var f := node.fields[i];
      if !Reserved(f.key) {
        if b {
          var (r, s1) := Eval(env, on, f.value, [], conv, Scalar(Bool(b)), s);
          KwargsKeys(env, on, node, i + 1, conv, b, s1);
          var out := EvalKwargs(env, on, node, i, conv, b, s).0;
          if out.Ok? {
            var rest := EvalKwargs(env, on, node, i + 1, conv, b, s1).0.value.entries;
            assert out.value.entries == [Entry(f.key, ConvertValue(r.value.instance, conv))] + rest;
            assert EntryKeys(out.value.entries) == [f.key] + EntryKeys(rest);
          }
        } else {
          var out := EvalKwargs(env, on, node, i, conv, b, s).0;
          if out.Ok? {
            var rest := EvalKwargs(env, on, node, i + 1, conv, b, s).0.value.entries;
            assert out.value.entries == [Entry(f.key, ConvertValue(RawValue(f.value), conv))] + rest;
            assert EntryKeys(out.value.entries) == [f.key] + EntryKeys(rest);
          }
        }
      }
    } else {
      assert node.fields[i..] == [];
    }
  }

  /** The kwargs of a non-recursive node: every value passed as it stands. */
  function RawKwargs(fields: seq<Field>, conv: ConvertMode): (r: seq<Entry>)
  {
    if |fields| == 0 then []
    else if Reserved(fields[0].key) then RawKwargs(fields[1..], conv)
    else [Entry(fields[0].key, ConvertValue(RawValue(fields[0].value), conv))] + RawKwargs(fields[1..], conv)
  }

  /**
   * With `_recursive_` false no value of the node is evaluated: the state is
   * untouched, no child info is collected and the kwargs are the raw values.
   */
  lemma {:induction false} NonRecursiveKwargs(env: Env, on: bool, node: Node, i: nat, conv: ConvertMode, s: State)
    requires node.Call? && i <= |node.fields|
    ensures EvalKwargs(env, on, node, i, conv, false, s) == (Ok(Collected(RawKwargs(node.fields[i..], conv), [])), s)
    decreases |node.fields| - i
  {
    if i < |node.fields| {
      assert node.fields[i..][1..] == node.fields[i + 1..];
      NonRecursiveKwargs(env, on, node, i + 1, conv, s);
    } else {
      assert node.fields[i..] == [];
    }
  }

  /**
   * After an invocation whose result may be cached, an active cache holds the
   * node itself with the same instance, and evaluating the node again answers
   * from the cache without another invocation.
   */
  lemma InvokedThenHit(env: Env, node: Node, args: seq<Value>, f: FuncId, ti: NodeInfo, c: Collected,
                       key: Node, pre: Option<NodeInfo>, s1: State, convert: ConvertMode, recursive: Node)
    requires node.Call?
    requires AsBool(NodeRecursive(node, recursive)).Some?
    requires var r := Invoked(env, true, node, args, f, ti, c, key, pre, s1).0; r.Ok? && r.value.info.cacheResult
    ensures var (r, t) := Invoked(env, true, node, args, f, ti, c, key, pre, s1);
            && node in t.store
            && t.store[node].instance == r.value.instance
            && Eval(env, true, node, args, convert, recursive, t).0 == Ok(t.store[node])
            && Eval(env, true, node, args, convert, recursive, t).1.calls == t.calls
  {
    var (r, t) := Invoked(env, true, node, args, f, ti, c, key, pre, s1);
    CacheHit(env, node, args, convert, recursive, t);
  }

  /** Whether the target a node resolves to carries the not_deterministic mark. */
  predicate MarkedNotDeterministic(env: Env, f: FuncId) {
    f in env.marks && env.marks[f].notDeterministic
  }

  /**
   * A non-deterministic target is always invoked once its node is not cached:
   * the result is flagged, its only substitute is the placeholder built from
   * the hash of the instance, the elapsed time of that invocation is recorded,
   * and with an active cache and `cache_result` it is stored under the node.
   */
  lemma NonDeterministicTarget(env: Env, on: bool, node: Node, args: seq<Value>, conv: ConvertMode, b: bool,
                               s: State, f: FuncId)
    requires node.Call? && !(on && node in s.store)
    requires env.resolve(node.target) == Some(f) && MarkedNotDeterministic(env, f)
    ensures var (k, s1) := EvalKwargs(env, on, node, 0, conv, b, Ask(on, s, node));
            var (r, t) := EvalCall(env, on, node, args, conv, b, s);
            k.Ok? ==>
              && |t.calls| == |s1.calls| + 1
              && t.calls[|s1.calls|] == Invocation(f, args, k.value.entries)
              && (r.Ok? ==>
                    && r.value.info.notDeterministic
                    && r.value.info.deterministicConfig == Some(Placeholder(env.hash(r.value.instance)))
                    && r.value.info.timeTarget == Some(env.elapsed(|s1.calls|))
                    && (r.value.info.cacheResult <==> AllCacheResult(k.value.infos) && TargetInfo(env, f, node).cacheResult)
                    && (on && r.value.info.cacheResult ==> t.store == s1.store[node := r.value]))
  {
    var (k, s1) := EvalKwargs(env, on, node, 0, conv, b, Ask(on, s, node));
    if k.Ok? {
      var ti := TargetInfo(env, f, node);
      assert CallRoute(env, on, node, conv, b, s) == Invoke(f, ti, k.value, node, None, s1);
    }
  }

  /**
   * A deterministic target: its info is combined before the invocation and
   * its cache key is the substitute built from the children's substitutes. A
   * cached substitute answers the node without invocation; otherwise the
   * result is stored under the substitute, and under the node itself flagged
   * not deterministic, or only under the node when there is no substitute.
   */
  lemma DeterministicTarget(env: Env, on: bool, node: Node, args: seq<Value>, conv: ConvertMode, b: bool,
                            s: State, f: FuncId)
    requires node.Call? && !(on && node in s.store)
    requires env.resolve(node.target) == Some(f) && !MarkedNotDeterministic(env, f)
    ensures var (k, s1) := EvalKwargs(env, on, node, 0, conv, b, Ask(on, s, node));
            var (r, t) := EvalCall(env, on, node, args, conv, b, s);
            k.Ok? ==>
              var sub := Substituted(node, k.value.infos);
              && (sub.Some? && on && sub.value in s1.store ==> r == Ok(s1.store[sub.value]) && t.calls == s1.calls)
              && (!(sub.Some? && on && sub.value in s1.store) ==>
                    && |t.calls| == |s1.calls| + 1
                    && t.calls[|s1.calls|] == Invocation(f, args, k.value.entries)
                    && (r.Ok? ==>
                          && !r.value.info.notDeterministic
                          && r.value.info.deterministicConfig == sub
                          && r.value.info.timeTarget == Some(env.elapsed(|s1.calls|))
                          && (r.value.info.cacheResult <==> AllCacheResult(k.value.infos) && TargetInfo(env, f, node).cacheResult)
                          && (on && r.value.info.cacheResult ==>
                                var key := sub.GetOr(node);
                                t.store == if key == node then s1.store[key := r.value]
                                           else s1.store[key := r.value][node := Instantiated(r.value.instance,
                                                                           r.value.info.(notDeterministic := true))])))
  {
    var (k, s1) := EvalKwargs(env, on, node, 0, conv, b, Ask(on, s, node));
    if k.Ok? {
      var ti := TargetInfo(env, f, node);
      var route := KeyRoute(on, node, f, ti, k.value, s1);
      assert CallRoute(env, on, node, conv, b, s) == route;
      assert EvalCall(env, on, node, args, conv, b, s) == Finish(env, on, node, args, route, s);
      if route.Invoke? {
        InvokedResult(env, on, node, args, f, ti, k.value, route.key, route.pre, route.s1);
      }
    }
  }

  /**
   * The constructor call: it is recorded as the next call; a successful
   * result carries the elapsed time, and is written to the cache exactly when
   * the cache is active and the result may be cached.
   */
  lemma InvokedResult(env: Env, on: bool, node: Node, args: seq<Value>, f: FuncId, ti: NodeInfo, c: Collected,
                      key: Node, pre: Option<NodeInfo>, s1: State)
    ensures var (r, t) := Invoked(env, on, node, args, f, ti, c, key, pre, s1);
      && t.calls == s1.calls + [Invocation(f, args, c.entries)]
      && (r.Ok? ==> r.value.info.timeTarget == Some(env.elapsed(|s1.calls|)))
      && (r.Ok? && pre.Some? ==> r.value.info == pre.value.(timeTarget := Some(env.elapsed(|s1.calls|))))
      && (r.Ok? && on && r.value.info.cacheResult ==>
            t.store == if key == node then s1.store[key := r.value]
                       else s1.store[key := r.value][node := Instantiated(r.value.instance,
                                                       r.value.info.(notDeterministic := true))])
      && (!(r.Ok? && on && r.value.info.cacheResult) ==> t.store == s1.store)
  {
  }
}
