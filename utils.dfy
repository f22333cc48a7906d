/**
 * Helpers of hydra_cached/utils.py: the conversions between a dict of lists
 * and a list of dicts, and the keyword-argument rules of the two function
 * decorators. Python dicts keep insertion order, so a dict is an ordered
 * list of key/value entries.
 */
module Utils {
  import opened Wrappers

  datatype KV<V> = KV(key: string, value: V)

  type Dict<V> = seq<KV<V>>

  function Keys<V>(d: Dict<V>): (r: seq<string>)
    ensures |r| == |d| && forall i :: 0 <= i < |d| ==> r[i] == d[i].key
  {
    seq(|d|, i requires 0 <= i < |d| => d[i].key)
  }

  function Values<V>(d: Dict<V>): (r: seq<V>)
    ensures |r| == |d| && forall i :: 0 <= i < |d| ==> r[i] == d[i].value
  {
    seq(|d|, i requires 0 <= i < |d| => d[i].value)
  }

  /** A Python dict never holds a key twice. */
  predicate Distinct<V>(d: Dict<V>) {
    forall i, j :: 0 <= i < j < |d| ==> d[i].key != d[j].key
  }

  /** `d.get(k)`: the value of the first entry with key `k`; `k in d` is `Get(d, k).Some?`. */
  function Get<V>(d: Dict<V>, k: string): Option<V> {
    if |d| == 0 then None
    else if d[0].key == k then Some(d[0].value) else Get(d[1..], k)
  }

  /** A key is in the dict exactly when it is one of its keys. */
  lemma {:induction false} GetKeys<V>(d: Dict<V>, k: string)
    ensures Get(d, k).Some? <==> k in Keys(d)
  {
    if |d| > 0 {
      assert Keys(d) == [d[0].key] + Keys(d[1..]);
      GetKeys(d[1..], k);
    }
  }

  lemma {:induction false} GetAt<V>(d: Dict<V>, i: nat)
    requires Distinct(d) && i < |d|
    ensures Get(d, d[i].key) == Some(d[i].value)
  {
    if i > 0 {
      GetAt(d[1..], i - 1);
    }
  }

  /** `d.pop(k)` without its result: the dict without key `k`. */
  function Remove<V>(d: Dict<V>, k: string): (r: Dict<V>)
    ensures Get(r, k) == None
    ensures forall x :: x != k ==> Get(r, x) == Get(d, x)
  {
    if |d| == 0 then []
    else if d[0].key == k then Remove(d[1..], k)
    else [d[0]] + Remove(d[1..], k)
  }

  /** `d[k] = v`: an existing key keeps its place, a new key goes last. */
  function Put<V>(d: Dict<V>, k: string, v: V): (r: Dict<V>)
    ensures Get(r, k) == Some(v)
    ensures forall x :: x != k ==> Get(r, x) == Get(d, x)
  {
    if |d| == 0 then [KV(k, v)]
    else if d[0].key == k then [KV(k, v)] + d[1..]
    else [d[0]] + Put(d[1..], k, v)
  }

  datatype UtilsError =
    | BothConversions              // as_numpy and as_json_string both set
    | EmptyList                    // ld[0] of an empty list
    | MissingKey(key: string)      // KeyError
    | AsIlocNotDeclared(name: string)
    | PositionalArgs
    | AsIlocKwarg
    | NotFrame(param: string)
    | NotSeries(param: string)
    | NotInt(param: string)

  // ---------------------------------------------------------------- dl_to_ld

  /** The length of the shortest list, 0 when there is none: how many tuples `zip(*dl.values())` yields. */
  function MinLen<V>(dl: Dict<seq<V>>): (n: nat)
    ensures forall j :: 0 <= j < |dl| ==> n <= |dl[j].value|
    ensures |dl| > 0 ==> exists j :: 0 <= j < |dl| && n == |dl[j].value|
    ensures |dl| == 0 ==> n == 0
  {
    if |dl| == 0 then 0
    else if |dl| == 1 then |dl[0].value|
    else
      var m := MinLen(dl[1..]);
      assert forall j :: 1 <= j < |dl| ==> dl[1..][j - 1] == dl[j];
      if |dl[0].value| <= m then |dl[0].value| else m
  }

  /** `dict(zip(dl, t))` for the `i`-th tuple `t`. */
  function Row<V>(dl: Dict<seq<V>>, i: nat): Dict<V>
    requires forall j :: 0 <= j < |dl| ==> i < |dl[j].value|
  {
    seq(|dl|, j requires 0 <= j < |dl| => KV(dl[j].key, dl[j].value[i]))
  }

  /** `dl_to_ld`: one dict per position of the shortest list, each with every key of `dl`. */
  function DlToLd<V>(dl: Dict<seq<V>>): (ld: seq<Dict<V>>)
    ensures |ld| == MinLen(dl)
    ensures forall i :: 0 <= i < |ld| ==> Keys(ld[i]) == Keys(dl)
  {
    var n := MinLen(dl);
    seq(n, i requires 0 <= i < n => Row(dl, i))
  }

  lemma {:induction false} GetRow<V>(dl: Dict<seq<V>>, i: nat, k: string)
    requires forall j :: 0 <= j < |dl| ==> i < |dl[j].value|
    ensures Get(Row(dl, i), k).Some? == Get(dl, k).Some?
    ensures Get(dl, k).Some? ==> i < |Get(dl, k).value| && Get(Row(dl, i), k).value == Get(dl, k).value[i]
  {
    if |dl| > 0 {
      assert Row(dl, i) == [KV(dl[0].key, dl[0].value[i])] + Row(dl[1..], i);
      GetRow(dl[1..], i, k);
    }
  }

  /** The `i`-th dict of `dl_to_ld` maps every key `k` of `dl` to `dl[k][i]`, and has no other key. */
  lemma DlToLdGet<V>(dl: Dict<seq<V>>, i: nat, k: string)
    requires i < |DlToLd(dl)|
    ensures Get(DlToLd(dl)[i], k).Some? == Get(dl, k).Some?
    ensures Get(dl, k).Some? ==> i < |Get(dl, k).value| && Get(DlToLd(dl)[i], k).value == Get(dl, k).value[i]
  {
    GetRow(dl, i, k);
  }

  // ---------------------------------------------------------------- ld_to_dl

  /** The conversion applied to every value: `np.array`, `json.dumps` or none. */
  function Conversion<V>(asNumpy: bool, asJson: bool, toArray: V -> V, toJson: V -> V): V -> V {
    if asNumpy then toArray else if asJson then toJson else x => x
  }

  /** `[func(dic[k]) for dic in ld]`. */
  function Column<V>(ld: seq<Dict<V>>, k: string, f: V -> V): (r: Result<seq<V>, UtilsError>)
    ensures r.Ok? <==> forall i :: 0 <= i < |ld| ==> Get(ld[i], k).Some?
    ensures r.Err? ==> r.error == MissingKey(k)
    ensures r.Ok? ==> |r.value| == |ld| && forall i :: 0 <= i < |ld| ==> r.value[i] == f(Get(ld[i], k).value)
  {
    if |ld| == 0 then Ok([])
    else
      assert forall i :: 1 <= i < |ld| ==> ld[1..][i - 1] == ld[i];
      match Get(ld[0], k)
      case None => Err(MissingKey(k))
      case Some(v) =>
        match Column(ld[1..], k, f)
        case Err(e) => Err(e)
        case Ok(rest) => Ok([f(v)] + rest)
  }

  /** `{k: [...] for k in keys}`: the first key whose column fails raises. */
  function Columns<V>(ld: seq<Dict<V>>, keys: seq<string>, f: V -> V): (r: Result<Dict<seq<V>>, UtilsError>)
    ensures r.Ok? ==> |r.value| == |keys| && forall c :: 0 <= c < |keys| ==> r.value[c].key == keys[c]
    ensures r.Err? ==> r.error.MissingKey?
  {
    if |keys| == 0 then Ok([])
    else
      match Column(ld, keys[0], f)
      case Err(e) => Err(e)
      case Ok(col) =>
        match Columns(ld, keys[1..], f)
        case Err(e) => Err(e)
        case Ok(rest) => Ok([KV(keys[0], col)] + rest)
  }

  /**
   * The dict comprehension succeeds exactly when every key's column does,
   * and then holds each key's column; otherwise it raises the error of the
   * first key whose column fails.
   */
  lemma {:induction false} ColumnsSpec<V>(ld: seq<Dict<V>>, keys: seq<string>, f: V -> V)
    ensures var r := Columns(ld, keys, f);
      r.Ok? <==> forall c :: 0 <= c < |keys| ==> Column(ld, keys[c], f).Ok?
    ensures var r := Columns(ld, keys, f);
      r.Ok? ==> forall c :: 0 <= c < |keys| ==> Column(ld, keys[c], f) == Ok(r.value[c].value)
    ensures var r := Columns(ld, keys, f);
      r.Err? ==> exists c :: 0 <= c < |keys| && r.error == MissingKey(keys[c]) && Column(ld, keys[c], f).Err?
                             && forall c' :: 0 <= c' < c ==> Column(ld, keys[c'], f).Ok?
  {
    if |keys| > 0 {
      var tail := keys[1..];
      assert forall c :: 1 <= c < |keys| ==> tail[c - 1] == keys[c];
      ColumnsSpec(ld, tail, f);
      var r := Columns(ld, keys, f);
      var first := Column(ld, keys[0], f);
      if first.Err? {
        assert r == Err(first.error);
      } else {
        var rest := Columns(ld, tail, f);
        if rest.Ok? {
          assert r.value == [KV(keys[0], first.value)] + rest.value;
          forall c | 0 <= c < |keys|
            ensures Column(ld, keys[c], f) == Ok(r.value[c].value)
          {
            if c > 0 {
              assert r.value[c] == rest.value[c - 1];
            }
          }
        } else {
          assert r == Err(rest.error);
          var c :| 0 <= c < |tail| && rest.error == MissingKey(tail[c]) && Column(ld, tail[c], f).Err?
                   && forall c' :: 0 <= c' < c ==> Column(ld, tail[c'], f).Ok?;
          assert keys[c + 1] == tail[c];
          forall c' | 0 <= c' < c + 1
            ensures Column(ld, keys[c'], f).Ok?
          {
            if c' > 0 {
              assert keys[c'] == tail[c' - 1];
            }
          }
        }
      }
    }
  }

  /**
   * `ld_to_dl`: both conversions at once fail the assertion, and an empty
   * list has no `ld[0]`; otherwise each key of the first dict, in its order,
   * gets the list of its converted values in all dicts.
   */
  function LdToDl<V>(ld: seq<Dict<V>>, asNumpy: bool, asJson: bool, toArray: V -> V, toJson: V -> V)
    : (r: Result<Dict<seq<V>>, UtilsError>)
    ensures r == Err(BothConversions) <==> asNumpy && asJson
    ensures !(asNumpy && asJson) && |ld| == 0 ==> r == Err(EmptyList)
  {
    if asNumpy && asJson then Err(BothConversions)
    else if |ld| == 0 then Err(EmptyList)
    else Columns(ld, Keys(ld[0]), Conversion(asNumpy, asJson, toArray, toJson))
  }

  /**
   * The remaining cases of `ld_to_dl`: it succeeds exactly when every dict
   * has every key of the first one; then the result has the first dict's
   * keys and, under each, the converted values of all dicts in order;
   * otherwise it raises KeyError for a key of the first dict that some dict
   * lacks.
   */
  lemma LdToDlCases<V>(ld: seq<Dict<V>>, asNumpy: bool, asJson: bool, toArray: V -> V, toJson: V -> V)
    requires !(asNumpy && asJson) && |ld| > 0
    ensures var r := LdToDl(ld, asNumpy, asJson, toArray, toJson);
      r.Ok? <==> forall i, k :: 0 <= i < |ld| && Get(ld[0], k).Some? ==> Get(ld[i], k).Some?
    ensures var r := LdToDl(ld, asNumpy, asJson, toArray, toJson);
      r.Ok? ==> Keys(r.value) == Keys(ld[0])
    ensures var r := LdToDl(ld, asNumpy, asJson, toArray, toJson);
      r.Ok? ==> forall c, i :: 0 <= c < |r.value| && 0 <= i < |ld| ==>
        && Get(ld[i], r.value[c].key).Some? && i < |r.value[c].value|
        && r.value[c].value[i] == Conversion(asNumpy, asJson, toArray, toJson)(Get(ld[i], r.value[c].key).value)
    ensures var r := LdToDl(ld, asNumpy, asJson, toArray, toJson);
      r.Err? ==> exists i, k :: 0 <= i < |ld| && Get(ld[0], k).Some? && Get(ld[i], k).None? && r.error == MissingKey(k)
  {
    var f := Conversion(asNumpy, asJson, toArray, toJson);
    var keys := Keys(ld[0]);
    var r := Columns(ld, keys, f);
    assert LdToDl(ld, asNumpy, asJson, toArray, toJson) == r;
    ColumnsOkIff(ld, keys, f);
    ColumnsValues(ld, keys, f);
    ColumnsErr(ld, keys, f);
    if r.Ok? {
      var d := r.value;
      assert Keys(d) == keys;
      forall c, i | 0 <= c < |d| && 0 <= i < |ld|
        ensures Get(ld[i], d[c].key).Some? && i < |d[c].value| && d[c].value[i] == f(Get(ld[i], d[c].key).value)
      {
      }
      forall i, k | 0 <= i < |ld| && Get(ld[0], k).Some?
        ensures Get(ld[i], k).Some?
      {
        GetKeys(ld[0], k);
      }
    } else {
      var i, k :| 0 <= i < |ld| && k in keys && Get(ld[i], k).None? && r.error == MissingKey(k);
      GetKeys(ld[0], k);
    }
  }

  lemma ColumnsOkIff<V>(ld: seq<Dict<V>>, keys: seq<string>, f: V -> V)
    ensures Columns(ld, keys, f).Ok? <==> forall i, k :: 0 <= i < |ld| && k in keys ==> Get(ld[i], k).Some?
  {
    ColumnsSpec(ld, keys, f);
    if !Columns(ld, keys, f).Ok? {
      var c :| 0 <= c < |keys| && Column(ld, keys[c], f).Err?;
      var i :| 0 <= i < |ld| && Get(ld[i], keys[c]).None?;
      assert keys[c] in keys;
    }
  }

  /** Each entry of the comprehension holds its key's column. */
  lemma ColumnsEntries<V>(ld: seq<Dict<V>>, keys: seq<string>, f: V -> V)
    requires Columns(ld, keys, f).Ok?
    ensures var d := Columns(ld, keys, f).value;
      forall c :: 0 <= c < |d| ==> Column(ld, d[c].key, f) == Ok(d[c].value)
  {
    ColumnsSpec(ld, keys, f);
    var d := Columns(ld, keys, f).value;
    forall c | 0 <= c < |d|
      ensures Column(ld, d[c].key, f) == Ok(d[c].value)
    {
      assert Keys(d)[c] == keys[c];
    }
  }

  lemma ColumnsValues<V>(ld: seq<Dict<V>>, keys: seq<string>, f: V -> V)
    ensures var r := Columns(ld, keys, f);
      r.Ok? ==> forall c, i :: 0 <= c < |r.value| && 0 <= i < |ld| ==>
        && Get(ld[i], r.value[c].key).Some? && i < |r.value[c].value|
        && r.value[c].value[i] == f(Get(ld[i], r.value[c].key).value)
  {
    var r := Columns(ld, keys, f);
    if r.Ok? {
      ColumnsEntries(ld, keys, f);
    }
  }

  lemma ColumnsErr<V>(ld: seq<Dict<V>>, keys: seq<string>, f: V -> V)
    ensures var r := Columns(ld, keys, f);
      r.Err? ==> exists i, k :: 0 <= i < |ld| && k in keys && Get(ld[i], k).None? && r.error == MissingKey(k)
  {
    ColumnsSpec(ld, keys, f);
    var r := Columns(ld, keys, f);
    if r.Err? {
      var c :| 0 <= c < |keys| && r.error == MissingKey(keys[c]) && Column(ld, keys[c], f).Err?;
      var i :| 0 <= i < |ld| && Get(ld[i], keys[c]).None?;
      assert keys[c] in keys;
    }
  }

  /** Columns that each give one entry's list rebuild that dict. */
  lemma {:induction false} ColumnsOf<V>(ld: seq<Dict<V>>, d: Dict<seq<V>>, f: V -> V)
    requires forall c :: 0 <= c < |d| ==> Column(ld, d[c].key, f) == Ok(d[c].value)
    ensures Columns(ld, Keys(d), f) == Ok(d)
  {
    if |d| > 0 {
      assert Keys(d)[1..] == Keys(d[1..]);
      assert forall c :: 1 <= c < |d| ==> d[1..][c - 1] == d[c];
      ColumnsOf(ld, d[1..], f);
      assert Keys(d)[0] == d[0].key;
      assert [KV(d[0].key, d[0].value)] + d[1..] == d;
    }
  }

  /** Every entry's list is the column of its key in `dl_to_ld(dl)` when all lists have one length. */
  lemma ColumnOfRows<V>(dl: Dict<seq<V>>, c: nat, f: V -> V)
    requires Distinct(dl) && c < |dl| && f == (x => x)
    requires forall j :: 0 <= j < |dl| ==> |dl[j].value| == |dl[0].value|
    ensures Column(DlToLd(dl), dl[c].key, f) == Ok(dl[c].value)
  {
    var ld := DlToLd(dl);
    var k := dl[c].key;
    GetAt(dl, c);
    forall i | 0 <= i < |ld|
      ensures Get(ld[i], k) == Some(dl[c].value[i])
    {
      DlToLdGet(dl, i, k);
    }
    var r := Column(ld, k, f);
    assert r.Ok?;
    forall i | 0 <= i < |ld|
      ensures r.value[i] == dl[c].value[i]
    {
      assert r.value[i] == f(Get(ld[i], k).value) == Get(ld[i], k).value;
    }
    assert r.value == dl[c].value;
  }

  /** A dict of lists that all have one positive length survives `ld_to_dl(dl_to_ld(dl))`. */
  lemma DlLdRoundTrip<V>(dl: Dict<seq<V>>, toArray: V -> V, toJson: V -> V)
    requires |dl| > 0 && Distinct(dl) && |dl[0].value| > 0
    requires forall j :: 0 <= j < |dl| ==> |dl[j].value| == |dl[0].value|
    ensures LdToDl(DlToLd(dl), false, false, toArray, toJson) == Ok(dl)
  {
    var ld := DlToLd(dl);
    var f := Conversion(false, false, toArray, toJson);
    assert |ld| > 0 && Keys(ld[0]) == Keys(dl);
    forall c | 0 <= c < |dl|
      ensures Column(ld, dl[c].key, f) == Ok(dl[c].value)
    {
      ColumnOfRows(dl, c, f);
    }
    ColumnsOf(ld, dl, f);
  }

  /** Row `i` of a rebuilt dict of lists is dict `i` of the list, when all dicts share the first one's keys. */
  lemma RowOfColumns<V>(ld: seq<Dict<V>>, dl: Dict<seq<V>>, i: nat, f: V -> V)
    requires i < |ld| && Distinct(ld[i]) && f == (x => x)
    requires Keys(dl) == Keys(ld[i])
    requires forall c :: 0 <= c < |dl| ==> Column(ld, dl[c].key, f) == Ok(dl[c].value)
    ensures forall j :: 0 <= j < |dl| ==> i < |dl[j].value|
    ensures Row(dl, i) == ld[i]
  {
    forall c | 0 <= c < |dl|
      ensures i < |dl[c].value| && Row(dl, i)[c] == ld[i][c]
    {
      assert Keys(dl)[c] == Keys(ld[i])[c];
      GetAt(ld[i], c);
      assert dl[c].value[i] == Get(ld[i], dl[c].key).value;
    }
  }

  /**
   * A non-empty list of dicts that all have the same keys, in the same
   * order, as a non-empty first dict survives `dl_to_ld(ld_to_dl(ld))`.
   */
  lemma LdDlRoundTrip<V>(ld: seq<Dict<V>>, toArray: V -> V, toJson: V -> V)
    requires |ld| > 0 && |ld[0]| > 0 && Distinct(ld[0])
    requires forall i :: 0 <= i < |ld| ==> Keys(ld[i]) == Keys(ld[0])
    ensures LdToDl(ld, false, false, toArray, toJson).Ok?
    ensures DlToLd(LdToDl(ld, false, false, toArray, toJson).value) == ld
  {
    var f := Conversion(false, false, toArray, toJson);
    forall i, k | 0 <= i < |ld| && Get(ld[0], k).Some?
      ensures Get(ld[i], k).Some?
    {
      GetKeys(ld[0], k);
      GetKeys(ld[i], k);
    }
    LdToDlCases(ld, false, false, toArray, toJson);
    var dl := LdToDl(ld, false, false, toArray, toJson).value;
    assert Keys(dl) == Keys(ld[0]);
    ColumnsEntries(ld, Keys(ld[0]), f);
    assert |dl[0].value| == |ld|;
    assert MinLen(dl) == |ld|;
    forall i | 0 <= i < |ld|
      ensures DlToLd(dl)[i] == ld[i]
    {
      SameKeysDistinct(ld[0], ld[i]);
      RowOfColumns(ld, dl, i, f);
    }
  }

  lemma SameKeysDistinct<V>(d: Dict<V>, e: Dict<V>)
    requires Distinct(d) && Keys(e) == Keys(d)
    ensures Distinct(e)
  {
    forall a, b | 0 <= a < b < |e|
      ensures e[a].key != e[b].key
    {
      assert Keys(e)[a] == Keys(d)[a] && Keys(e)[b] == Keys(d)[b];
    }
  }

  // ---------------------------------------------------------------- maybe_select_column_from_dataframe

  /** The argument values the decorators look at. */
  datatype Arg =
    | NoneArg
    | BoolArg(b: bool)
    | IntArg(n: int)
    | StrArg(s: string)
    | Frame(frame: nat)       // a pd.DataFrame
    | Series(series: nat)     // a pd.Series
    | OtherArg(id: nat)

  /** `isinstance(col, int)`; a Python bool is an int. */
  predicate IsInt(a: Arg) {
    a.IntArg? || a.BoolArg?
  }

  function IntOf(a: Arg): int
    requires IsInt(a)
  {
    if a.IntArg? then a.n else if a.b then 1 else 0
  }

  /**
   * The decorator's own check: `as_iloc` (None meaning empty) may only name
   * column parameters that the decorator declares as values.
   */
  method CheckAsIloc(asIloc: Option<set<string>>, decoratorKwargs: Dict<string>) returns (r: Result<set<string>, UtilsError>)
    ensures r.Ok? <==> forall x :: x in asIloc.GetOr({}) ==> x in Values(decoratorKwargs)
    ensures r.Ok? ==> r.value == asIloc.GetOr({})
    ensures r.Err? ==> r.error.AsIlocNotDeclared? && r.error.name in asIloc.GetOr({})
                       && r.error.name !in Values(decoratorKwargs)
  {
    var names := asIloc.GetOr({});
    var done: set<string> := {};
    while done != names
      invariant done <= names
      invariant forall x :: x in done ==> x in Values(decoratorKwargs)
      decreases names - done
    {
      assert exists x :: x in names && x !in done;
      var x :| x in names && x !in done;
      if x !in Values(decoratorKwargs) {
        return Err(AsIlocNotDeclared(x));
      }
      done := done + {x};
    }
    return Ok(names);
  }

  /**
   * One entry `obj: col` of the decorator: when `col` is given, it and `obj`
   * are popped, `obj` must be a data frame, and `obj` is put back as its
   * column `col` (by position when `col` is in `as_iloc`, which needs an
   * int); otherwise `obj` must already be a series.
   */
  function SelectStep(asIloc: set<string>, obj: string, col: string, kw: Dict<Arg>,
                      byName: (Arg, Arg) -> Arg, byPosition: (Arg, int) -> Arg): (r: Result<Dict<Arg>, UtilsError>)
    ensures r.Ok? ==> obj != col && Get(r.value, col) == None && Get(r.value, obj).Some?
    ensures r.Ok? ==> forall x :: x != obj && x != col ==> Get(r.value, x) == Get(kw, x)
  {
    if Get(kw, col).Some? then
      var c := Get(kw, col).value;
      var kw1 := Remove(kw, col);
      if Get(kw1, obj).None? then Err(MissingKey(obj))
      else
        var o := Get(kw1, obj).value;
        var kw2 := Remove(kw1, obj);
        if !o.Frame? then Err(NotFrame(obj))
        else if col in asIloc then
          if !IsInt(c) then Err(NotInt(col))
          else Ok(Put(kw2, obj, byPosition(o, IntOf(c))))
        else Ok(Put(kw2, obj, byName(o, c)))
    else if Get(kw, obj).None? then Err(MissingKey(obj))
    else if !Get(kw, obj).value.Series? then Err(NotSeries(obj))
    else Ok(kw)
  }

  /**
   * What one entry does: without `col`, an `obj` that is a series passes
   * and anything else is an error; with `col`, `obj` (a data frame) is
   * replaced by its column.
   */
  lemma SelectStepCases(asIloc: set<string>, obj: string, col: string, kw: Dict<Arg>,
                        byName: (Arg, Arg) -> Arg, byPosition: (Arg, int) -> Arg)
    ensures var r := SelectStep(asIloc, obj, col, kw, byName, byPosition);
      Get(kw, col).None? ==>
        r == if Get(kw, obj).None? then Err(MissingKey(obj))
             else if Get(kw, obj).value.Series? then Ok(kw) else Err(NotSeries(obj))
    ensures var r := SelectStep(asIloc, obj, col, kw, byName, byPosition);
      Get(kw, col).Some? ==>
        if obj == col || Get(kw, obj).None? then r == Err(MissingKey(obj))
        else if !Get(kw, obj).value.Frame? then r == Err(NotFrame(obj))
        else if col in asIloc && !IsInt(Get(kw, col).value) then r == Err(NotInt(col))
        else r.Ok? && Get(r.value, obj) == Some(
          if col in asIloc then byPosition(Get(kw, obj).value, IntOf(Get(kw, col).value))
          else byName(Get(kw, obj).value, Get(kw, col).value))
  {
  }

  /** The loop of the wrapper over the decorator's entries, in order. */
  function SelectAll(asIloc: set<string>, entries: Dict<string>, kw: Dict<Arg>,
                     byName: (Arg, Arg) -> Arg, byPosition: (Arg, int) -> Arg): (r: Result<Dict<Arg>, UtilsError>)
    ensures r.Err? ==>
      exists j :: 0 <= j < |entries| && r.error in
        {MissingKey(entries[j].key), NotFrame(entries[j].key), NotSeries(entries[j].key), NotInt(entries[j].value)}
  {
    if |entries| == 0 then Ok(kw)
    else
      match SelectStep(asIloc, entries[0].key, entries[0].value, kw, byName, byPosition)
      case Err(e) => Err(e)
      case Ok(kw') => SelectAll(asIloc, entries[1..], kw', byName, byPosition)
  }

  /** `x` is neither an object parameter nor a column parameter of the decorator. */
  predicate Unnamed(entries: Dict<string>, x: string) {
    forall j :: 0 <= j < |entries| ==> entries[j].key != x && entries[j].value != x
  }

  /** No name is both an object parameter and a column parameter. */
  predicate Separate(entries: Dict<string>) {
    forall i, j :: 0 <= i < |entries| && 0 <= j < |entries| ==> entries[i].value != entries[j].key
  }

  /** When the wrapper succeeds, every keyword argument the decorator does not name reaches the function unchanged. */
  lemma {:induction false} SelectPassThrough(asIloc: set<string>, entries: Dict<string>, kw: Dict<Arg>,
                                             byName: (Arg, Arg) -> Arg, byPosition: (Arg, int) -> Arg)
    requires SelectAll(asIloc, entries, kw, byName, byPosition).Ok?
    ensures var out := SelectAll(asIloc, entries, kw, byName, byPosition).value;
      forall x :: Unnamed(entries, x) ==> Get(out, x) == Get(kw, x)
  {
    if |entries| > 0 {
      var kw' := SelectStep(asIloc, entries[0].key, entries[0].value, kw, byName, byPosition).value;
      var rest := entries[1..];
      SelectPassThrough(asIloc, rest, kw', byName, byPosition);
      forall x | Unnamed(entries, x)
        ensures Unnamed(rest, x)
      {
        assert forall j :: 1 <= j < |entries| ==> rest[j - 1] == entries[j];
      }
    }
  }

  /**
   * When the wrapper succeeds and no name is both an object and a column
   * parameter, every object parameter reaches the function and no column
   * parameter does.
   */
  lemma {:induction false} SelectParams(asIloc: set<string>, entries: Dict<string>, kw: Dict<Arg>,
                                        byName: (Arg, Arg) -> Arg, byPosition: (Arg, int) -> Arg)
    requires SelectAll(asIloc, entries, kw, byName, byPosition).Ok? && Separate(entries)
    ensures var out := SelectAll(asIloc, entries, kw, byName, byPosition).value;
      forall j :: 0 <= j < |entries| ==> Get(out, entries[j].key).Some? && Get(out, entries[j].value).None?
  {
    if |entries| > 0 {
      var kw' := SelectStep(asIloc, entries[0].key, entries[0].value, kw, byName, byPosition).value;
      var rest := entries[1..];
      assert forall j :: 1 <= j < |entries| ==> rest[j - 1] == entries[j];
      assert Separate(rest);
      SelectParams(asIloc, rest, kw', byName, byPosition);
      SelectRestKeeps(asIloc, rest, kw', byName, byPosition, entries[0].key, entries[0].value);
    }
  }

  /**
   * Processing further entries, none of which uses `col` as its object,
   * keeps `col` absent and keeps `obj` present.
   */
  lemma {:induction false} SelectRestKeeps(asIloc: set<string>, entries: Dict<string>, kw: Dict<Arg>,
                                           byName: (Arg, Arg) -> Arg, byPosition: (Arg, int) -> Arg,
                                           obj: string, col: string)
    requires SelectAll(asIloc, entries, kw, byName, byPosition).Ok?
    requires Get(kw, obj).Some? && Get(kw, col).None?
    requires forall j :: 0 <= j < |entries| ==> entries[j].key != col && entries[j].value != obj
    ensures var out := SelectAll(asIloc, entries, kw, byName, byPosition).value;
      Get(out, obj).Some? && Get(out, col).None?
  {
    if |entries| > 0 {
      var kw' := SelectStep(asIloc, entries[0].key, entries[0].value, kw, byName, byPosition).value;
      assert forall j :: 1 <= j < |entries| ==> entries[1..][j - 1] == entries[j];
      SelectRestKeeps(asIloc, entries[1..], kw', byName, byPosition, obj, col);
    }
  }

  /**
   * The wrapper of `maybe_select_column_from_dataframe`: positional
   * arguments and a keyword argument `as_iloc` are rejected, then the
   * decorator's entries are applied to `kwargs` in order; the result is the
   * keyword arguments the wrapped function is called with.
   */
  method SelectColumnWrapper(asIloc: set<string>, decoratorKwargs: Dict<string>, args: seq<Arg>, kwargs: Dict<Arg>,
                             byName: (Arg, Arg) -> Arg, byPosition: (Arg, int) -> Arg)
    returns (r: Result<Dict<Arg>, UtilsError>)
    ensures |args| != 0 ==> r == Err(PositionalArgs)
    ensures |args| == 0 && Get(kwargs, "as_iloc").Some? ==> r == Err(AsIlocKwarg)
    ensures |args| == 0 && Get(kwargs, "as_iloc").None? ==> r == SelectAll(asIloc, decoratorKwargs, kwargs, byName, byPosition)
  {
    if |args| != 0 {
      return Err(PositionalArgs);
    }
    if Get(kwargs, "as_iloc").Some? {
      return Err(AsIlocKwarg);
    }
    var kw := kwargs;
    var j := 0;
    while j < |decoratorKwargs|
      invariant 0 <= j <= |decoratorKwargs|
      invariant SelectAll(asIloc, decoratorKwargs, kwargs, byName, byPosition)
             == SelectAll(asIloc, decoratorKwargs[j..], kw, byName, byPosition)
    {
      var objParameter := decoratorKwargs[j].key;
      var colNameParameter := decoratorKwargs[j].value;
      assert decoratorKwargs[j..][1..] == decoratorKwargs[j + 1..];
      if Get(kw, colNameParameter).Some? {
        var col := Get(kw, colNameParameter).value;
        kw := Remove(kw, colNameParameter);
        if Get(kw, objParameter).None? {
          return Err(MissingKey(objParameter));
        }
        var obj := Get(kw, objParameter).value;
        kw := Remove(kw, objParameter);
        if !obj.Frame? {
          return Err(NotFrame(objParameter));
        }
        if colNameParameter in asIloc {
          if !IsInt(col) {
            return Err(NotInt(colNameParameter));
          }
          kw := Put(kw, objParameter, byPosition(obj, IntOf(col)));
        } else {
          kw := Put(kw, objParameter, byName(obj, col));
        }
      } else {
        if Get(kw, objParameter).None? {
          return Err(MissingKey(objParameter));
        }
        var obj := Get(kw, objParameter).value;
        if !obj.Series? {
          return Err(NotSeries(objParameter));
        }
      }
      j := j + 1;
    }
    return Ok(kw);
  }

  // ---------------------------------------------------------------- maybe_rename_result

  /**
   * The wrapper of `maybe_rename_result`: the rename parameter is popped
   * from the keyword arguments, the function receives the rest, and its
   * result is renamed when the popped value is not None.
   */
  method RenameWrapper(renameParameter: string, args: seq<Arg>, kwargs: Dict<Arg>,
                       func: (seq<Arg>, Dict<Arg>) -> Arg, rename: (Arg, Arg) -> Arg)
    returns (res: Arg, passed: Dict<Arg>)
    ensures Get(passed, renameParameter) == None
    ensures forall x :: x != renameParameter ==> Get(passed, x) == Get(kwargs, x)
    ensures match Get(kwargs, renameParameter)
            case Some(name) => res == if name != NoneArg then rename(func(args, passed), name) else func(args, passed)
            case None => passed == kwargs && res == func(args, kwargs)
  {
    var resultName := NoneArg;
    passed := kwargs;
    if Get(kwargs, renameParameter).Some? {
      resultName := Get(kwargs, renameParameter).value;
      passed := Remove(kwargs, renameParameter);
    }
    res := func(args, passed);
    if resultName != NoneArg {
      res := rename(res, resultName);
    }
  }
}
