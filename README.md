# hydra-cached in Dafny

hydra-cached is a drop-in version of hydra's `instantiate`. It turns a
configuration tree into objects by calling each `_target_` with the node's
other keys as keyword arguments. Along the way it memoises every target node
in a cache. While evaluating it records per-node metadata:

- whether the target is marked `@not_deterministic`;
- whether the result may be cached (`_cache_result_`);
- a deterministic substitute config when some descendant is not deterministic;
- the time the target call took.

This project models that evaluator and the parts of the repository around it.

- **Config** (`config.dfy`): configuration nodes (leaf, list, mapping, target
  mapping), the reserved keys, `_convert_` modes, the values instantiation
  produces, and the mapping operations the evaluator uses (lookup, assignment,
  `pop`).
- **HydraUtils** (`hydra_utils.dfy`): `InstantiatedNodeInfo`. `Combined` is the
  reference definition of `combine`, and the `Combine` method is its loop,
  proved equal to it. Also here: `from_func`, `from_func_info`, `FuncInfo`, and
  the `not_deterministic` decorator, which writes to a side table of callable
  attributes.
- **Memory** (`memory.dfy`): `InMemoryCache` as a class over a `map`, with
  `__contains__`, `__getitem__` (with its KeyError) and `__setitem__`.
- **Hydra** (`hydra.dfy`):
  - `Eval` is the reference definition of `instantiate_node`. It maps a node
    and an evaluation state (cache contents, constructor invocations so far,
    cache-interface calls so far) to the result and the new state.
  - `Engine` is the evaluator as the source runs it, on a mutable cache. Every
    one of its methods is proved to compute `Eval` or one of its branches.
  - `Instantiate` is `instantiate` with its None, top-level and cache-argument
    cases.
- **HydraProofs** (`hydra_proofs.dfy`): what every evaluation guarantees.
  - The state only grows.
  - A disabled cache is never touched.
  - Only results of calls with `cache_result` are stored.
  - Reserved keys never reach a constructor.
  - Positional arguments reach only the outermost call.
  - A cached node is answered without a call.
  - The exact cache writes for deterministic and non-deterministic targets.
  - The kwargs are the node's non-reserved keys in order.
  - A non-recursive node passes its values raw.
- **Dumpable** (`dumpable.dfy`): `DumpableInMemoryCache` with `load` and `dump`
  against an abstract directory, and the four constraints.
- **YamlUtils** (`yaml_utils.dfy`): the `ConfDumper` parts that name anchors.
  - `prepare_anchor`.
  - `collect_paths` on a graph of YAML nodes, so shared nodes and cycles are
    modelled. It terminates by memoisation.
  - `anchor_node`, which gives every node visited more than once the anchor of
    its shortest path.
- **Utils** (`utils.dfy`): `dl_to_ld` and `ld_to_dl` with their two round
  trips, and the argument handling of the `maybe_select_column_from_dataframe`
  and `maybe_rename_result` wrappers.

Two behaviours of the code worth stating:

- Lists and plain mappings always instantiate their children, whatever
  `_recursive_` says. The code (`hydra_cached/execution/hydra.py:163-167`,
  `249-271`) never consults `recursive` in those branches.
- For a deterministic target with a substitute config, the result is stored
  first under the substitute (`cache_key`). It is then stored under the node
  itself with `not_deterministic` set (`hydra_cached/execution/hydra.py:236-246`).

Things the evaluator gets from outside are fields of `Hydra.Env`:

- target resolution (`_resolve_target`);
- the constructor call (`_call_target`);
- the clock reading around invocation `n`;
- `joblib.hash`;
- whether a mapping carries a structured-config type.

## Model

| member | source | states |
|---|---|---|
| Config.Lookup | hydra_cached/execution/hydra.py:156-157 | a key is found exactly when some field of the mapping has it |
| Config.LookupSetField | hydra_cached/execution/hydra_utils.py:74 | after `d[k] = v`, `d[k]` is `v` and every other key keeps its value |
| Config.LookupRemoveField | hydra_cached/execution/hydra.py:107-108 | after removing `k`, `k` is absent and every other key keeps its value |
| Config.Pop | hydra_cached/execution/hydra.py:107-108 | `pop(key)` returns the value the node held under `key`; a target node stays a target node with the same target |
| Config.PopFlag | hydra_cached/execution/hydra.py:107-108 | after `pop(key)` the node has no `key`, and every other flag is unchanged |
| Config.PopOthers | hydra_cached/execution/hydra.py:107-108 | `pop(key)` leaves the flag of every other key as it was |
| Config.ModeOf | hydra_cached/execution/hydra.py:156 | a `_convert_` string selects "all" or "partial" exactly when it upper-cases to that name; anything else means no conversion |
| Config.ConvertValue | hydra_cached/execution/hydra.py:127-135 | a config value is turned into a container under "all" or "partial"; every other value, and every value under "none", passes unchanged |
| Config.Assign | hydra_cached/execution/hydra_utils.py:73-74 | assigning into a copy of a container keeps it a container of the same kind and length |
| Config.AssignItem | hydra_cached/execution/hydra_utils.py:74 | after `config[k] = v`, position `k` holds `v` and every other position is unchanged |
| HydraUtils.Substituted | hydra_cached/execution/hydra_utils.py:66-74 | the substitute, when there is one, has the parent's shape |
| HydraUtils.Combined | hydra_cached/execution/hydra_utils.py:50-83 | fails only when neither a parent nor a deterministic config is given; `not_deterministic` comes from the target alone; `cache_result` holds iff every child and the target allow it; an explicit deterministic config is kept; no time is set |
| HydraUtils.Combine | hydra_cached/execution/hydra_utils.py:50-83 | the loop (copy the parent at the first child with a substitute, then assign into it) computes `Combined` |
| HydraUtils.SubstitutedAbsent | hydra_cached/execution/hydra_utils.py:70-74 | there is no substitute exactly when no child has one |
| HydraUtils.SubstitutedReplaces | hydra_cached/execution/hydra_utils.py:70-74 | with distinct keys, each child that has a substitute finds it at its own position in the parent's substitute |
| HydraUtils.SubstitutedKeeps | hydra_cached/execution/hydra_utils.py:72-74 | every position where no child has a substitute keeps the parent's entry |
| HydraUtils.CombinedCacheResult | hydra_cached/execution/hydra_utils.py:77-81 | one child with `cache_result` false makes the combination false |
| HydraUtils.FuncInfoOf | hydra_cached/execution/hydra_utils.py:26-27 | the attached FuncInfo, or the default (deterministic) one when none is attached |
| HydraUtils.FromFuncInfo | hydra_cached/execution/hydra_utils.py:86-89 | an explicit `not_deterministic` wins over the FuncInfo's; `cache_result` is passed through |
| HydraUtils.FromFunc | hydra_cached/execution/hydra_utils.py:92-93 | not deterministic iff the callable is marked so |
| HydraUtils.FuncTable.ToFunc | hydra_cached/execution/hydra_utils.py:29-36 | the attribute of `f` becomes `info`, nothing else changes; it warns iff `f` already had one |
| HydraUtils.FuncTable.NotDeterministic | hydra_cached/execution/hydra_utils.py:105-114 | returns the same callable, now marked not deterministic |
| Memory.InMemoryCache.constructor | hydra_cached/execution/caching/memory.py:11-13 | an empty store with the given verbosity |
| Memory.InMemoryCache.Contains | hydra_cached/execution/caching/memory.py:15-19 | true iff the key is stored |
| Memory.InMemoryCache.Get | hydra_cached/execution/caching/memory.py:21-22 | the stored value, or KeyError for an absent key |
| Memory.InMemoryCache.Set | hydra_cached/execution/caching/memory.py:24-27 | stores or overwrites the key and leaves every other key as it was |
| Hydra.TargetInfo | hydra_cached/execution/hydra.py:191 | not deterministic iff the target is marked; `cache_result` is the truth of `_cache_result_`, true when absent; no substitute and no time |
| Hydra.Eval | hydra_cached/execution/hydra.py:138-278 | a leaf is its own value with the default info and the state unchanged; a successful list or plain mapping is never flagged not deterministic and has no target time |
| Hydra.EvalList | hydra_cached/execution/hydra.py:163-180 | one instance per element; a plain list under "all" or "partial", a ListConfig otherwise; never flagged, no time |
| Hydra.EvalDict | hydra_cached/execution/hydra.py:249-275 | a plain dict or DictConfig with exactly the mapping's keys in order; never flagged, no time |
| Hydra.EvalCall | hydra_cached/execution/hydra.py:185-247 | a node held by an active cache is answered from it; otherwise an unresolvable target fails after the lookup alone |
| Hydra.Finish | hydra_cached/execution/hydra.py:186-247 | a cache hit (of the node or of its substitute) returns the stored entry with no call and no store change; only the call route invokes the target, once, with the collected kwargs |
| Hydra.Invoked | hydra_cached/execution/hydra.py:221-247 | exactly one invocation is recorded; the result gets the time of that invocation; the store changes only under the cache key and the node, and not at all without an active cache or on failure |
| Hydra.EvalItems | hydra_cached/execution/hydra.py:164-167 | a successful list evaluation yields one result per remaining element |
| Hydra.EvalFields | hydra_cached/execution/hydra.py:253-260 | the child infos of a plain mapping are keyed by mapping keys, so they fit the parent for `combine`; one entry per remaining key, in order |
| Hydra.EvalKwargs | hydra_cached/execution/hydra.py:192-201 | the child infos of a target node are keyed by mapping keys |
| Hydra.CallRoute | hydra_cached/execution/hydra.py:185-219 | the node is answered from the cache only when the cache is active and holds the node; a substitute answers only when the active cache holds it |
| Hydra.KeyRoute | hydra_cached/execution/hydra.py:203-219 | the substitute answers only when the active cache holds it |
| Hydra.Engine.InstantiateNode | hydra_cached/execution/hydra.py:138-278 | the result and new cache, invocations and cache calls are exactly those of `Eval` on the old state |
| Hydra.Engine.InstantiateList | hydra_cached/execution/hydra.py:163-180 | computes the list branch of `Eval` (plain list under partial/all, ListConfig otherwise, info combined by index) |
| Hydra.Engine.InstantiateItems | hydra_cached/execution/hydra.py:164-167 | the comprehension over the elements computes `EvalItems` |
| Hydra.Engine.InstantiateDict | hydra_cached/execution/hydra.py:249-275 | computes the plain-mapping branch (dict under all, or partial when unstructured; DictConfig otherwise) |
| Hydra.Engine.InstantiateFields | hydra_cached/execution/hydra.py:253-260 | the loop over the items computes `EvalFields` |
| Hydra.Engine.CollectKwargs | hydra_cached/execution/hydra.py:192-201 | the loop filling `kwargs` and `infos` computes `EvalKwargs` |
| Hydra.Engine.InstantiateCall | hydra_cached/execution/hydra.py:185-247 | the target branch computes `EvalCall` |
| Hydra.Engine.InstantiateKeyed | hydra_cached/execution/hydra.py:203-247 | the cache key, its lookup and the call compute `Finish` of `KeyRoute` |
| Hydra.Engine.Invoke | hydra_cached/execution/hydra.py:221-247 | the call, the info of its result and the cache writes compute `Invoked` |
| Hydra.Prepare | hydra_cached/execution/hydra.py:107-108 | the popped config has neither `_recursive_` nor `_convert_`, keeps every other key and its target, stays a target node iff it was one; `_recursive_` defaults to true and the mode is the one `_convert_` named, "none" when absent |
| Hydra.Instantiate | hydra_cached/execution/hydra.py:72-124 | for a well-formed config (distinct keys): None gives None; a non-mapping is rejected; None as cache means a fresh cache, "DISABLED" means none, any other string or object is a ValueError; a given cache ends with the store `Eval` produces |
| HydraProofs.EvalExtends | hydra_cached/execution/hydra.py:138-278 | invocations and cache calls are only appended; keys are never removed; a disabled cache is untouched; each entry added or replaced comes from a call with `cache_result`; no call receives a reserved key; positional arguments reach only the last call, the outermost node's; every cache operation and every key added or replaced is a target node |
| HydraProofs.ContainerNotCached | hydra_cached/execution/hydra.py:163-180 | a list or plain mapping is never looked up or stored itself: no cache operation names it and its own entry stays as it was |
| HydraProofs.LeafContainerUntouched | hydra_cached/execution/hydra.py:163-180 | a list or mapping of leaves is evaluated without any cache operation, invocation or store change |
| HydraProofs.ItemsExtends | hydra_cached/execution/hydra.py:164-167 | the same for the elements of a list, which get no positional arguments |
| HydraProofs.FieldsExtends | hydra_cached/execution/hydra.py:253-271 | the same for the values of a plain mapping |
| HydraProofs.KwargsExtends | hydra_cached/execution/hydra.py:184-201 | the same for the kwargs, which never hold a reserved key |
| HydraProofs.InvokedExtends | hydra_cached/execution/hydra.py:221-247 | the call and the cache writes extend the state |
| HydraProofs.KeyedExtends | hydra_cached/execution/hydra.py:203-247 | the substitute lookup and the call extend the state |
| HydraProofs.CallExtends | hydra_cached/execution/hydra.py:185-247 | the target branch extends the state |
| HydraProofs.CacheHit | hydra_cached/execution/hydra.py:186-188 | a target node held by an active cache is answered from it: the stored entry, no invocation, only a lookup and a get recorded |
| HydraProofs.RecursiveNotBoolRejected | hydra_cached/execution/hydra.py:159-160 | a container whose `_recursive_` is not a bool is rejected with the state unchanged |
| HydraProofs.KwargsKeys | hydra_cached/execution/hydra.py:193-201 | the kwarg names are the node's non-reserved keys in the node's order |
| HydraProofs.NonRecursiveKwargs | hydra_cached/execution/hydra.py:193-201 | with `_recursive_` false nothing is evaluated, no child info is collected, and each kwarg is the raw value, converted |
| HydraProofs.InvokedThenHit | hydra_cached/execution/hydra.py:236-237 | after a call whose result may be cached, the active cache holds the node, and evaluating it again answers from the cache without a call |
| HydraProofs.NonDeterministicTarget | hydra_cached/execution/hydra.py:217-237 | a marked target is always called; its result is flagged, its substitute is the placeholder over the hash of the instance, it has the call's time, and it is stored under the node only |
| HydraProofs.DeterministicTarget | hydra_cached/execution/hydra.py:203-246 | a cached substitute answers without a call; otherwise the target is called, the result carries the combined info, and it is stored under the substitute and under the node flagged not deterministic (or under the node alone when there is no substitute) |
| HydraProofs.InvokedResult | hydra_cached/execution/hydra.py:221-246 | the call is recorded as the next one, the result gets that call's time, the precomputed info is kept, and the store changes exactly when the cache is active and `cache_result` holds |
| Dumpable.NotDeterministicConstraint | hydra_cached/execution/caching/dumpable.py:105-107 | rejects iff the entry is not deterministic |
| Dumpable.ExcludeTypesConstraint | hydra_cached/execution/caching/dumpable.py:110-112 | rejects iff the type of the instance is excluded |
| Dumpable.ExcludeTargetsConstraint | hydra_cached/execution/caching/dumpable.py:115-118 | rejects iff the config's `_target_` is the string of an excluded target |
| Dumpable.MinTimeConstraint | hydra_cached/execution/caching/dumpable.py:121-123 | rejects iff there is no target time or it is at most the minimum |
| Dumpable.Messages | hydra_cached/execution/caching/dumpable.py:47-56 | at most one message per constraint, and each message is what some constraint returned for the entry |
| Dumpable.MessagesAppend | hydra_cached/execution/caching/dumpable.py:47-56 | the messages of one more constraint are those of the others followed by its own |
| Dumpable.MessagesEmpty | hydra_cached/execution/caching/dumpable.py:47-56 | no message is produced exactly when no constraint rejects |
| Dumpable.Check | hydra_cached/execution/caching/dumpable.py:47-56 | skips iff some constraint rejects; every rejection message is collected, in order |
| Dumpable.LoadSave | hydra_cached/execution/caching/dumpable.py:57 | loading one accepted file keeps the load invariant with its config added |
| Dumpable.DumpableCache.constructor | hydra_cached/execution/caching/dumpable.py:26-30 | without a directory the store is empty; with one it holds exactly the files of that directory |
| Dumpable.DumpableCache.Load | hydra_cached/execution/caching/dumpable.py:32-59 | fails only when no directory is known; then exactly the configs of passing files are added, each holding the data of a passing file with that config, and every other entry is unchanged |
| Dumpable.DumpableCache.Dump | hydra_cached/execution/caching/dumpable.py:61-102 | fails only when no directory is known; only passing entries are saved, each under the hash of its config; every passing entry has a file; with overwrite every passing entry is saved, without it no existing file is replaced; without it no two saved entries share a hash; the count is the number saved and at most the store's size |
| Dumpable.DumpSkip | hydra_cached/execution/caching/dumpable.py:84-94 | an entry that fails a constraint, or whose file exists without overwrite, is not written, and the dump invariant holds with it handled |
| Dumpable.DumpSave | hydra_cached/execution/caching/dumpable.py:95-100 | an entry that passes and may be written is saved under its hash, and the dump invariant holds |
| Dumpable.DumpOne | hydra_cached/execution/caching/dumpable.py:76-100 | one loop iteration keeps the dump invariant and the saved count |
| Dumpable.DumpEntries | hydra_cached/execution/caching/dumpable.py:73-100 | the loop over the store leaves the directory in the state `Progress` describes for every entry |
| Dumpable.WrittenBound | hydra_cached/execution/caching/dumpable.py:100-102 | the dumped count never exceeds the number of entries |
| YamlUtils.PrepareAnchor | hydra_cached/execution/yaml_utils.py:21-29 | accepts exactly the non-empty anchors of allowed characters and returns them unchanged; the empty anchor is its own error; otherwise it reports the first invalid character |
| YamlUtils.IndexText | hydra_cached/execution/yaml_utils.py:50 | the label of an item index is a non-empty string of digits |
| YamlUtils.CollectPaths | hydra_cached/execution/yaml_utils.py:42-60 | the reference definition of `collect_paths` on a given table: the table only gains keys and `node` is in it afterwards |
| YamlUtils.CollectItemPaths | hydra_cached/execution/yaml_utils.py:48-51 | the loop over the items only adds keys to the table |
| YamlUtils.CollectPairPaths | hydra_cached/execution/yaml_utils.py:52-59 | the loop over the entries, with the clash assertion first, only adds keys to the table |
| YamlUtils.CollectPairAt | hydra_cached/execution/yaml_utils.py:53-59 | key then value of one entry; only adds keys to the table |
| YamlUtils.CollectPathsSpec | hydra_cached/execution/yaml_utils.py:42-60 | a node seen before gets `current` appended and nothing else changes; a new node gets `current` as its first path; the table only grows; on success every newly visited node has recorded the path of each of its children and has no key clash; on failure some newly visited mapping has a key `k` and a key `@k` |
| YamlUtils.FreshSeqSpec | hydra_cached/execution/yaml_utils.py:46-51 | the same for a sequence visited for the first time |
| YamlUtils.FreshMapSpec | hydra_cached/execution/yaml_utils.py:46-59 | the same for a mapping visited for the first time |
| YamlUtils.ItemPathsSpec | hydra_cached/execution/yaml_utils.py:48-51 | item `i` is recorded under `current + [str(i)]`, for every item, when the loop succeeds |
| YamlUtils.ItemAtSpec | hydra_cached/execution/yaml_utils.py:50-51 | after item `i` the item has recorded `current + [str(i)]`, and the table still extends the one at the parent's first visit |
| YamlUtils.PairPathsSpec | hydra_cached/execution/yaml_utils.py:52-59 | each key is recorded under `current + ["@" + k]` and each value under `current + [k]`; the loop fails exactly on a clash in the node or below |
| YamlUtils.PairAtSpec | hydra_cached/execution/yaml_utils.py:53-59 | after one entry its key and its value have recorded their paths |
| YamlUtils.ChildSpec | hydra_cached/execution/yaml_utils.py:51 | after the recursive call the child has recorded its path and the table still extends the one at the parent's first visit |
| YamlUtils.PathCollector.Collect | hydra_cached/execution/yaml_utils.py:42-60 | the outcome and the table it leaves in `paths` are exactly `CollectPaths` on the table it started from |
| YamlUtils.PathCollector.CollectItems | hydra_cached/execution/yaml_utils.py:48-51 | the loop over the items computes `CollectItemPaths` |
| YamlUtils.PathCollector.CollectPairs | hydra_cached/execution/yaml_utils.py:52-59 | the loop over the entries computes `CollectPairPaths` |
| YamlUtils.PathCollector.CollectPair | hydra_cached/execution/yaml_utils.py:53-59 | one entry computes `CollectPairAt` |
| YamlUtils.CollectedFromRoot | hydra_cached/execution/yaml_utils.py:31-40 | `collect_paths(root, {}, [])` either leaves a table collected from the root or fails on a clashing mapping it visited |
| YamlUtils.SharedItemExample | hydra_cached/execution/yaml_utils.py:33-60 | for `[x, x]` the shared scalar has paths `0` and `1` and anchor `0`, the root has no anchor, and a node the root does not reach is not in the table |
| YamlUtils.ExtendedEdge | hydra_cached/execution/yaml_utils.py:48-59 | every child of an explored node is in the table |
| YamlUtils.WalkCovered | hydra_cached/execution/yaml_utils.py:42-60 | every node reachable from the root has at least one recorded path |
| YamlUtils.ShortestIndex | hydra_cached/execution/yaml_utils.py:39 | the first path of least length, as a stable sort by length puts first |
| YamlUtils.JoinValid | hydra_cached/execution/yaml_utils.py:40 | labels that are valid anchors, joined by `.`, form a valid anchor |
| YamlUtils.LabelsValid | hydra_cached/execution/yaml_utils.py:50-59 | item labels are valid anchors; a key label is valid iff the key's text is empty or valid |
| YamlUtils.AnchorOf | hydra_cached/execution/yaml_utils.py:33-40 | no anchor iff the node has one path; otherwise the earliest shortest path joined by `.` |
| YamlUtils.ConfDumper.AnchorNode | hydra_cached/execution/yaml_utils.py:31-40 | the outcome is that of `CollectPaths(root, {}, [])`; on failure the anchors are unchanged; on success every node of that table gets `AnchorOf` its paths, and the other anchors are unchanged |
| Utils.Remove | hydra_cached/utils.py:102-103 | after `kwargs.pop(k)`, `k` is absent and every other key is unchanged |
| Utils.Put | hydra_cached/utils.py:111-113 | after `kwargs[k] = v`, `k` maps to `v` and every other key is unchanged |
| Utils.MinLen | hydra_cached/utils.py:29 | the length of the shortest list (how far `zip` runs), 0 for an empty dict |
| Utils.DlToLd | hydra_cached/utils.py:25-29 | as many dicts as the shortest list is long, each with the keys of `dl` in order |
| Utils.DlToLdGet | hydra_cached/utils.py:29 | dict `i` holds, under each key of `dl`, element `i` of that key's list |
| Utils.Column | hydra_cached/utils.py:46 | succeeds iff every dict has the key (KeyError otherwise); the elements are the converted values in order |
| Utils.Columns | hydra_cached/utils.py:46 | the result has the given keys in order; its only error is a KeyError |
| Utils.ColumnsSpec | hydra_cached/utils.py:46 | the comprehension succeeds iff every key's column does, and then each key holds its column; otherwise it raises for the first key whose column fails |
| Utils.LdToDl | hydra_cached/utils.py:38-46 | both conversions at once and an empty list are errors |
| Utils.LdToDlCases | hydra_cached/utils.py:38-46 | succeeds iff every dict has every key of the first; then the keys are the first dict's and the values the converted values of all dicts; otherwise KeyError for a missing key |
| Utils.DlLdRoundTrip | hydra_cached/utils.py:25-46 | `ld_to_dl(dl_to_ld(dl)) == dl` for a non-empty dict of equally long, non-empty lists |
| Utils.LdDlRoundTrip | hydra_cached/utils.py:25-46 | `dl_to_ld(ld_to_dl(ld)) == ld` for a non-empty list of dicts that share the same non-empty keys |
| Utils.CheckAsIloc | hydra_cached/utils.py:85-88 | accepted iff every name in `as_iloc` is a column parameter of the decorator; otherwise the error names an undeclared one |
| Utils.SelectStep | hydra_cached/utils.py:99-118 | on success the column parameter is gone, the object parameter is present, and every other argument is unchanged |
| Utils.SelectStepCases | hydra_cached/utils.py:99-118 | without the column parameter, a series passes unchanged and anything else is an error; with it, a data frame is replaced by its column (by position for `as_iloc`, which needs an int), and other objects are errors |
| Utils.SelectPassThrough | hydra_cached/utils.py:99-119 | every argument the decorator does not name reaches the function unchanged |
| Utils.SelectParams | hydra_cached/utils.py:99-119 | every object parameter reaches the function and no column parameter does |
| Utils.SelectAll | hydra_cached/utils.py:99-118 | a failure is one of the step errors for some entry of the decorator: missing or wrongly typed object, or a non-int position |
| Utils.SelectColumnWrapper | hydra_cached/utils.py:92-119 | positional arguments, then an `as_iloc` keyword, are rejected; otherwise the function's arguments are `SelectAll` of the decorator's entries in order |
| Utils.RenameWrapper | hydra_cached/utils.py:149-156 | the rename parameter is popped and every other argument reaches the function; the result is renamed iff the popped value is not None |

## Left out

- The `Cache` interface (`hydra_cached/execution/caching/interface.py`) is not modelled as an abstract type. The engine works on `Memory.InMemoryCache` directly, with null for "no cache". The sequence of cache-interface calls is recorded in the evaluation state, which is what a pluggable cache would observe.
- OmegaConf's handling of the input config is not modelled: the TargetConf `???` check, `_prepare_input_dict`, `OmegaConf.structured`, the deep copy and flags, merging `**kwargs` into the config, and `OmegaConf.resolve` (`hydra_cached/execution/hydra.py:76-105`). Configs are taken as already resolved nodes, and `instantiate` takes no override kwargs.
- Config.Node: a target node keeps its `_target_` apart from its other fields, so where `_target_` stood among the keys is lost. Two target configs that differ only in that position are equal in the model, while DictConfig equality (and so the cache key) may tell them apart.
- Config.UpperAscii: case folding covers ASCII letters only, where Python's `str.upper` also maps other characters (`"ı".upper() == "I"`), so such a `_convert_` string selects no conversion in the model.
- Interpolations, parent links, node flags and `_iter_ex(resolve=True)` are not modelled; nodes are plain trees.
- Structured-config types are reduced to `Env.structured`. Type identity (`type(v.instance)`, `exclude_types`) is reduced to type names.
- Hydra's internals are parameters of `Hydra.Env`: `_resolve_target`, `_call_target` (including its handling of a `_args_` kwarg, which the evaluator passes on like any other key), `_convert_target_to_string` and `joblib.hash`.
- `OmegaConf.to_container` is the symbolic value `ToContainer`, and `OmegaConf.create` for result containers is the value `ListConf`/`DictConf`.
- Time is a clock parameter (`Env.elapsed`), and durations are integers.
- Logging and `verbose` have no effect on the model.
- The file system is an abstract map from directory to files keyed by hash.
  - The `.yaml`/`.pkl` pair is one entry.
  - Pickling, YAML text, `OmegaConf.to_yaml`, `glob` and orphan files are left out.
  - The hash of a config is a parameter of `Dump`.
- Dumpable.DumpableCache.Load: the listing order of the files is left open. The contract says which file holds each loaded config, not which of two files with the same config wins.
- Dumpable.DumpableCache.Dump: iteration order over the store is left open. The contract does not say which of two entries with the same hash is saved last.
- `ConfDumper.ignore_aliases`, `get_conf_dumper`, `config_to_yaml` and the PyYAML emitter itself are left out; only the anchor naming is modelled.
- The text of a YAML key is a field of each mapping pair. A non-scalar key's text (its Python `repr`) is left to the caller.
- `call_on_self` (`hydra_cached/utils.py:12-22`) is left out because it is a reflective `getattr` call.
- numpy and json conversions in `ld_to_dl` are parameters `V -> V`.
- The pandas column selection (`obj[col]`, `obj.iloc[:, col]`) and `rename` are parameters.
- In the two wrappers, the wrapped function is a parameter.
- `main.py` and `main_simple.py` are command-line front ends and are not part of this model.
