/**
 * The in-memory cache that can be saved to and restored from a directory
 * (DumpableInMemoryCache), and the four constraints that filter what is
 * saved or restored.
 *
 * A directory is an abstract map from the hash of an entry's config to the
 * pair of files `<hash>.yaml` (the config) and `<hash>.pkl` (the value).
 */
module Dumpable {
  import opened Wrappers
  import opened Config
  import opened HydraUtils
  import Memory

  /** A constraint maps a cache entry to a rejection message, or None to accept it. */
  type Constraint = (Node, Instantiated) -> Option<string>

  /** The two files saved for one entry. */
  datatype Saved = Saved(config: Node, data: Instantiated)

  /** A directory: file base name (the hash) to the saved pair. */
  type Directory = map<string, Saved>

  datatype DirError = NoDirectory   // neither the argument nor the cache names a directory

  /** The file system: directory path to directory contents. */
  class FileSystem {
    var dirs: map<string, Directory>

    constructor (dirs: map<string, Directory>)
      ensures this.dirs == dirs
    {
      this.dirs := dirs;
    }
  }

  /** `type(v)` of an instance, named by its class. */
  function TypeName(v: Value): string {
    match v
    case Prim(Null) => "NoneType"
    case Prim(Bool(_)) => "bool"
    case Prim(Int(_)) => "int"
    case Prim(Float(_)) => "float"
    case Prim(Str(_)) => "str"
    case PlainList(_) => "list"
    case ListConf(_) => "ListConfig"
    case PlainDict(_) => "dict"
    case DictConf(_, _) => "DictConfig"
    case Raw(n) => if n.Sequence? then "ListConfig" else "DictConfig"
    case ToContainer(c, _) => if c.ListConf? || (c.Raw? && c.node.Sequence?) then "list" else "dict"
    case Object(t, _) => t
  }

  /** `not_deterministic_constraint`. */
  function NotDeterministicConstraint(k: Node, v: Instantiated): (r: Option<string>)
    ensures r.Some? <==> v.info.notDeterministic
  {
    if v.info.notDeterministic then Some("don't dump/load entry since it is not deterministic") else None
  }

  /** `exclude_types_constraint`. */
  function ExcludeTypesConstraint(k: Node, v: Instantiated, excludeTypes: seq<string>): (r: Option<string>)
    ensures r.Some? <==> TypeName(v.instance) in excludeTypes
  {
    if TypeName(v.instance) in excludeTypes then Some("don't dump/load entry since its type is in exclude_types")
    else None
  }

  /**
   * `exclude_targets_constraint`: `targetString` is hydra's conversion of a
   * target (callable, type or string) to its dotted name.
   */
  function ExcludeTargetsConstraint<T>(k: Node, v: Instantiated, excludeTargets: seq<T>, targetString: T -> string)
    : (r: Option<string>)
    ensures r.Some? <==> exists j :: 0 <= j < |excludeTargets| && Item(k, Name(TARGET)) == Some(Scalar(Str(targetString(excludeTargets[j]))))
  {
    var names := seq(|excludeTargets|, j requires 0 <= j < |excludeTargets| => targetString(excludeTargets[j]));
    var t := Item(k, Name(TARGET));
    if t.Some? && t.value.Scalar? && t.value.atom.Str? && t.value.atom.s in names then
      Some("don't dump/load entry since it was created with an excluded target")
    else
      assert forall j :: 0 <= j < |excludeTargets| ==> names[j] == targetString(excludeTargets[j]);
      None
  }

  /** `exclude_target_time_none_or_lesser_then`. */
  function MinTimeConstraint(k: Node, v: Instantiated, minTime: int): (r: Option<string>)
    ensures r.Some? <==> v.info.timeTarget.None? || v.info.timeTarget.value <= minTime
  {
    if v.info.timeTarget.None? || v.info.timeTarget.value <= minTime then
      Some("don't dump/load entry since its target_time is lesser then the minimum")
    else None
  }

  /** The messages of every rejecting constraint, in order. */
  function Messages(cs: seq<Constraint>, k: Node, v: Instantiated): (r: seq<string>)
    ensures |r| <= |cs|
    ensures forall m :: m in r ==> exists j :: 0 <= j < |cs| && cs[j](k, v) == Some(m)
  {
    if |cs| == 0 then []
    else (match cs[0](k, v) case Some(m) => [m] case None => []) + Messages(cs[1..], k, v)
  }

  /** An entry passes when there are no constraints or none of them rejects it. */
  predicate Passes(cs: Option<seq<Constraint>>, k: Node, v: Instantiated) {
    cs.None? || forall j :: 0 <= j < |cs.value| ==> cs.value[j](k, v).None?
  }

  lemma {:induction false} MessagesEmpty(cs: seq<Constraint>, k: Node, v: Instantiated)
    ensures Messages(cs, k, v) == [] <==> Passes(Some(cs), k, v)
  {
    if |cs| > 0 {
      MessagesEmpty(cs[1..], k, v);
      assert forall j :: 1 <= j < |cs| ==> cs[1..][j - 1] == cs[j];
    }
  }

  /**
   * The loop over the constraints: every constraint is evaluated, even after
   * one has rejected, and every message is logged.
   */
  method Check(cs: Option<seq<Constraint>>, k: Node, v: Instantiated) returns (skip: bool, warnings: seq<string>)
    ensures skip <==> !Passes(cs, k, v)
    ensures warnings == if cs.None? then [] else Messages(cs.value, k, v)
  {
    skip := false;
    warnings := [];
    if cs.Some? {
      var i := 0;
      while i < |cs.value|
        invariant 0 <= i <= |cs.value|
        invariant warnings == Messages(cs.value[..i], k, v)
        invariant skip <==> warnings != []
      {
        MessagesAppend(cs.value[..i], cs.value[i], k, v);
        assert cs.value[..i + 1] == cs.value[..i] + [cs.value[i]];
        var m := cs.value[i](k, v);
        if m.Some? {
          warnings := warnings + [m.value];
          skip := true;
        }
        i := i + 1;
      }
      assert cs.value[..i] == cs.value;
      MessagesEmpty(cs.value, k, v);
    }
  }

  /** The messages of one more constraint follow those of the earlier ones. */
  lemma {:induction false} MessagesAppend(cs: seq<Constraint>, c: Constraint, k: Node, v: Instantiated)
    ensures Messages(cs + [c], k, v) == Messages(cs, k, v) + (match c(k, v) case Some(m) => [m] case None => [])
  {
    if |cs| == 0 {
      assert [c][1..] == [];
    } else {
      assert (cs + [c])[1..] == cs[1..] + [c];
      MessagesAppend(cs[1..], c, k, v);
    }
  }

  /** The configs of the files of `dir` that pass the constraints. */
  ghost function Accepted(dir: Directory, names: set<string>, cs: Option<seq<Constraint>>): set<Node> {
    set h | h in names && h in dir && Passes(cs, dir[h].config, dir[h].data) :: dir[h].config
  }

  /**
   * The store `store`, grown from `start` by loading files of `files`:
   * exactly the configs `accepted` are added, every other entry keeps its
   * value, and each accepted config holds the data of an accepted file saved
   * with that config.
   */
  ghost predicate LoadProgress(start: map<Node, Instantiated>, store: map<Node, Instantiated>, files: Directory,
                               accepted: set<Node>, cs: Option<seq<Constraint>>) {
    && store.Keys == start.Keys + accepted
    && (forall k :: k in start && k !in accepted ==> store[k] == start[k])
    && (forall k :: k in accepted ==>
          exists h :: h in files && files[h].config == k && Passes(cs, k, files[h].data) && store[k] == files[h].data)
  }

  lemma AcceptedAdd(files: Directory, done: set<string>, cs: Option<seq<Constraint>>, h: string)
    requires h in files
    ensures Accepted(files, done + {h}, cs)
         == Accepted(files, done, cs) + (if Passes(cs, files[h].config, files[h].data) then {files[h].config} else {})
  {
  }

  /** Loading an accepted file puts its data under its config. */
  lemma LoadSave(start: map<Node, Instantiated>, store: map<Node, Instantiated>, files: Directory,
                 accepted: set<Node>, cs: Option<seq<Constraint>>, h: string)
    requires LoadProgress(start, store, files, accepted, cs)
    requires h in files && Passes(cs, files[h].config, files[h].data)
    ensures LoadProgress(start, store[files[h].config := files[h].data], files, accepted + {files[h].config}, cs)
  {
    var k := files[h].config;
    var store' := store[k := files[h].data];
    forall k' | k' in accepted + {k}
      ensures exists h' :: h' in files && files[h'].config == k' && Passes(cs, k', files[h'].data)
                           && store'[k'] == files[h'].data
    {
      if k' == k {
        assert files[h].config == k' && store'[k'] == files[h].data;
      } else {
        assert store'[k'] == store[k'];
      }
    }
  }

  class DumpableCache {
    const inner: Memory.InMemoryCache<Node, Instantiated>
    const directory: Option<string>

    /** Creates the cache and, when a directory is given, loads it right away. */
    constructor (directory: Option<string>, verbose: bool, fs: FileSystem)
      ensures this.directory == directory
      ensures fresh(inner) && inner.verbose == verbose
      ensures directory.None? ==> inner.store == map[]
      ensures directory.Some? ==>
        LoadProgress(map[], inner.store, DirOf(fs.dirs, directory.value),
                     Accepted(DirOf(fs.dirs, directory.value), DirOf(fs.dirs, directory.value).Keys, None), None)
    {
      this.directory := directory;
      inner := new Memory.InMemoryCache(verbose);
      new;
      if directory.Some? {
        var _ := Load(fs, None, None);
      }
    }

    static function DirOf(dirs: map<string, Directory>, d: string): Directory {
      if d in dirs then dirs[d] else map[]
    }

    /**
     * `load`: every file whose entry passes the constraints is put into the
     * store, in the order the directory listing gives (left open here), so
     * of two accepted files with the same config the later one wins.
     */
    method Load(fs: FileSystem, dir: Option<string>, constraints: Option<seq<Constraint>>) returns (r: Result<(), DirError>)
      modifies inner
      ensures dir.None? && directory.None? ==> r == Err(NoDirectory) && inner.store == old(inner.store)
      ensures r.Ok? <==> dir.Some? || directory.Some?
      ensures r.Ok? ==>
        var files := DirOf(fs.dirs, if dir.Some? then dir.value else directory.value);
        LoadProgress(old(inner.store), inner.store, files, Accepted(files, files.Keys, constraints), constraints)
    {
      var d: string;
      if dir.Some? {
        d := dir.value;
      } else if directory.Some? {
        d := directory.value;
      } else {
        return Err(NoDirectory);
      }
      var files := DirOf(fs.dirs, d);
      var done: set<string> := {};
      assert Accepted(files, done, constraints) == {};
      while done != files.Keys
        invariant done <= files.Keys
        invariant LoadProgress(old(inner.store), inner.store, files, Accepted(files, done, constraints), constraints)
        decreases files.Keys - done
      {
        assert exists x :: x in files.Keys && x !in done;
        var h :| h in files.Keys && h !in done;
        var entry := files[h];
        var skip, _ := Check(constraints, entry.config, entry.data);
        AcceptedAdd(files, done, constraints, h);
        if !skip {
          LoadSave(old(inner.store), inner.store, files, Accepted(files, done, constraints), constraints, h);
          inner.Set(entry.config, entry.data);
        }
        done := done + {h};
      }
      r := Ok(());
    }

    /**
     * `dump`: every entry that passes the constraints is saved under the hash
     * of its config, unless that file exists and `overwrite` is false. The
     * store itself is left as it is; `n` counts the saved entries. The
     * directory is created when it does not exist.
     */
    method Dump(fs: FileSystem, dir: Option<string>, constraints: Option<seq<Constraint>>, overwrite: bool,
                keyHash: Node -> string)
      returns (r: Result<nat, DirError>, ghost written: set<Node>)
      modifies fs
      ensures dir.None? && directory.None? ==> r == Err(NoDirectory) && fs.dirs == old(fs.dirs)
      ensures r.Ok? <==> dir.Some? || directory.Some?
      ensures r.Ok? ==>
        var d := if dir.Some? then dir.value else directory.value;
        && d in fs.dirs
        && fs.dirs == old(fs.dirs)[d := fs.dirs[d]]
        && Progress(inner.store, DirOf(old(fs.dirs), d), fs.dirs[d], inner.store.Keys, constraints, overwrite, keyHash, written)
        && r.value == |written| <= |inner.store|
    {
      written := {};
      var d: string;
      if dir.Some? {
        d := dir.value;
      } else if directory.Some? {
        d := directory.value;
      } else {
        r := Err(NoDirectory);
        return;
      }
      var out, n;
      out, n, written := DumpEntries(inner.store, DirOf(fs.dirs, d), constraints, overwrite, keyHash);
      WrittenBound(inner.store, DirOf(fs.dirs, d), out, constraints, overwrite, keyHash, written);
      fs.dirs := fs.dirs[d := out];
      r := Ok(n);
    }
  }

  /** The entries of `store` that pass the constraints. */
  ghost function Passing(store: map<Node, Instantiated>, keys: set<Node>, cs: Option<seq<Constraint>>): set<Node> {
    set k | k in keys && k in store && Passes(cs, k, store[k])
  }

  /**
   * The state of a dump of `store` into directory contents `before` once the
   * entries `done` are handled, with `after` the contents and `written` the
   * configs saved so far: only passing entries are saved, each under its
   * hash; every handled passing entry has a file; with `overwrite` every
   * handled passing entry is saved, without it no existing file is replaced;
   * every file is either as before or a saved entry.
   */
  ghost predicate Progress(store: map<Node, Instantiated>, before: Directory, after: Directory, done: set<Node>,
                           cs: Option<seq<Constraint>>, overwrite: bool, keyHash: Node -> string, written: set<Node>) {
    && written <= Passing(store, done, cs)
    && (forall k :: k in written ==> keyHash(k) in after)
    && (forall k :: k in done && k in store && Passes(cs, k, store[k]) ==> keyHash(k) in after)
    && (overwrite ==> written == Passing(store, done, cs))
    && (!overwrite ==> forall k :: k in written ==> keyHash(k) !in before)
    && (!overwrite ==> forall k, k' :: k in written && k' in written && keyHash(k) == keyHash(k') ==> k == k')
    && (!overwrite ==> forall h :: h in before ==> h in after && after[h] == before[h])
    && before.Keys <= after.Keys
    && (forall h :: h in after ==>
          (h in before && after[h] == before[h]) ||
          (exists k :: k in written && k in store && keyHash(k) == h && after[h] == Saved(k, store[k])))
  }

  /** Handling one more entry `k` that is not saved: it fails a constraint, or its file exists and stays. */
  lemma DumpSkip(store: map<Node, Instantiated>, before: Directory, after: Directory, done: set<Node>,
                 cs: Option<seq<Constraint>>, overwrite: bool, keyHash: Node -> string, written: set<Node>, k: Node)
    requires Progress(store, before, after, done, cs, overwrite, keyHash, written)
    requires k in store && k !in done
    requires !(Passes(cs, k, store[k]) && (overwrite || keyHash(k) !in after))
    ensures Progress(store, before, after, done + {k}, cs, overwrite, keyHash, written)
  {
    var pass := Passes(cs, k, store[k]);
    assert Passing(store, done + {k}, cs) == Passing(store, done, cs) + (if pass then {k} else {});
  }

  /** Handling one more entry `k` that passes and whose file may be (re)written: it is saved. */
  lemma DumpSave(store: map<Node, Instantiated>, before: Directory, after: Directory, done: set<Node>,
                 cs: Option<seq<Constraint>>, overwrite: bool, keyHash: Node -> string, written: set<Node>, k: Node)
    requires Progress(store, before, after, done, cs, overwrite, keyHash, written)
    requires k in store && k !in done
    requires Passes(cs, k, store[k]) && (overwrite || keyHash(k) !in after)
    ensures k !in written
    ensures Progress(store, before, after[keyHash(k) := Saved(k, store[k])], done + {k}, cs, overwrite, keyHash,
                     written + {k})
  {
    assert Passing(store, done + {k}, cs) == Passing(store, done, cs) + {k};
    var after' := after[keyHash(k) := Saved(k, store[k])];
    var written' := written + {k};
    forall h | h in after'
      ensures (h in before && after'[h] == before[h]) ||
              (exists k' :: k' in written' && k' in store && keyHash(k') == h && after'[h] == Saved(k', store[k']))
    {
      if h == keyHash(k) {
        assert k in written' && after'[h] == Saved(k, store[k]);
      } else {
        assert after'[h] == after[h];
      }
    }
  }

  /** The loop of `dump` over the store, in the store's iteration order (left open here). */
  method DumpEntries(store: map<Node, Instantiated>, before: Directory, constraints: Option<seq<Constraint>>,
                     overwrite: bool, keyHash: Node -> string)
    returns (after: Directory, n: nat, written: set<Node>)
    ensures Progress(store, before, after, store.Keys, constraints, overwrite, keyHash, written)
    ensures n == |written|
  {
    after := before;
    n := 0;
    written := {};
    var done: set<Node> := {};
    DumpStart(store, before, constraints, overwrite, keyHash);
    while done != store.Keys
      invariant done <= store.Keys
      invariant n == |written|
      invariant Progress(store, before, after, done, constraints, overwrite, keyHash, written)
      decreases store.Keys - done
    {
      assert exists x :: x in store.Keys && x !in done;
      var k :| k in store.Keys && k !in done;
      after, n, written := DumpOne(store, before, after, done, constraints, overwrite, keyHash, written, n, k);
      done := done + {k};
    }
  }

  lemma DumpStart(store: map<Node, Instantiated>, before: Directory, cs: Option<seq<Constraint>>, overwrite: bool,
                  keyHash: Node -> string)
    ensures Progress(store, before, before, {}, cs, overwrite, keyHash, {})
  {
    assert Passing(store, {}, cs) == {};
  }

  /** One iteration of the loop of `dump`: entry `k` is checked and, if it may be, saved. */
  method DumpOne(store: map<Node, Instantiated>, before: Directory, after: Directory, ghost done: set<Node>,
                 constraints: Option<seq<Constraint>>, overwrite: bool, keyHash: Node -> string,
                 written: set<Node>, n: nat, k: Node)
    returns (after': Directory, n': nat, written': set<Node>)
    requires Progress(store, before, after, done, constraints, overwrite, keyHash, written) && n == |written|
    requires k in store && k !in done
    ensures Progress(store, before, after', done + {k}, constraints, overwrite, keyHash, written')
    ensures n' == |written'|
  {
    var v := store[k];
    var skip, _ := Check(constraints, k, v);
    var h := keyHash(k);
    if !skip && (overwrite || h !in after) {
      DumpSave(store, before, after, done, constraints, overwrite, keyHash, written, k);
      after', n', written' := after[h := Saved(k, v)], n + 1, written + {k};
    } else {
      DumpSkip(store, before, after, done, constraints, overwrite, keyHash, written, k);
      after', n', written' := after, n, written;
    }
  }

  /** A finished dump has saved at most one file per entry of the store. */
  lemma WrittenBound(store: map<Node, Instantiated>, before: Directory, after: Directory,
                     cs: Option<seq<Constraint>>, overwrite: bool, keyHash: Node -> string, written: set<Node>)
    requires Progress(store, before, after, store.Keys, cs, overwrite, keyHash, written)
    ensures |written| <= |store|
  {
    assert written <= store.Keys;
    SubsetCard(written, store.Keys);
    assert |store.Keys| == |store|;
  }

  lemma SubsetCard<T>(a: set<T>, b: set<T>)
    requires a <= b
    ensures |a| <= |b|
  {
    assert b == a + (b - a);
  }
}
