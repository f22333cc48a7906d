/**
 * Anchor naming of the YAML dumper (ConfDumper): every node reachable from
 * the root is given the list of paths by which it is reached, and a node
 * reached by two or more paths is anchored by its shortest path.
 *
 * YAML nodes are compared by identity, so the document is a graph from node
 * ids to node contents; a node shared between two places is one id.
 */
module YamlUtils {
  import opened Wrappers

  type Id = nat

  /** One entry of a mapping node: the key node, the text of its value (`key.value`), and the value node. */
  datatype Pair = Pair(key: Id, text: string, value: Id)

  datatype YNode = YScalar(value: string) | YSeq(items: seq<Id>) | YMap(pairs: seq<Pair>)

  type Graph = map<Id, YNode>

  /** A path: the labels from the root to a node. */
  type Path = seq<string>

  type PathTable = map<Id, seq<Path>>

  const PATH_SEP: char := '.'     // anchor_path_sep
  const KEY_MARKER: char := '@'   // anchor_key_marker

  /** Every child referenced by a node of the graph is a node of the graph. */
  ghost predicate Closed(g: Graph) {
    forall n :: n in g ==> ChildrenIn(g[n], g.Keys)
  }

  predicate ChildrenIn(y: YNode, ks: set<Id>) {
    match y
    case YScalar(_) => true
    case YSeq(items) => forall i :: 0 <= i < |items| ==> items[i] in ks
    case YMap(pairs) => forall j :: 0 <= j < |pairs| ==> pairs[j].key in ks && pairs[j].value in ks
  }

  /** `b` is a child of `a`: an item of a sequence, or a key or a value of a mapping. */
  ghost predicate Edge(g: Graph, a: Id, b: Id) {
    a in g &&
    match g[a]
    case YScalar(_) => false
    case YSeq(items) => exists i :: 0 <= i < |items| && items[i] == b
    case YMap(pairs) => exists j :: 0 <= j < |pairs| && (pairs[j].key == b || pairs[j].value == b)
  }

  /** A walk in the graph along child edges. */
  ghost predicate Walk(g: Graph, w: seq<Id>) {
    |w| > 0 && forall i :: 0 <= i < |w| - 1 ==> Edge(g, w[i], w[i + 1])
  }

  // ---------------------------------------------------------------- prepare_anchor

  /** The characters an anchor may hold: ASCII letters and digits, `-`, `_`, the path separator and the key marker. */
  predicate AnchorChar(ch: char) {
    ('0' <= ch <= '9') || ('A' <= ch <= 'Z') || ('a' <= ch <= 'z') || ch == '-' || ch == '_'
    || ch == PATH_SEP || ch == KEY_MARKER
  }

  predicate ValidAnchor(s: string) {
    |s| > 0 && forall i :: 0 <= i < |s| ==> AnchorChar(s[i])
  }

  datatype EmitterError = EmptyAnchor | InvalidChar(ch: char, anchor: string)

  /**
   * `prepare_anchor`: the empty anchor is rejected, then the first character
   * outside the allowed set is reported; a valid anchor is returned as it is.
   */
  method PrepareAnchor(anchor: string) returns (r: Result<string, EmitterError>)
    ensures r.Ok? <==> ValidAnchor(anchor)
    ensures r.Ok? ==> r.value == anchor
    ensures anchor == [] ==> r == Err(EmptyAnchor)
    ensures r.Err? && anchor != [] ==>
      exists i :: 0 <= i < |anchor| && r.error == InvalidChar(anchor[i], anchor) && !AnchorChar(anchor[i])
                  && forall j :: 0 <= j < i ==> AnchorChar(anchor[j])
  {
    if |anchor| == 0 {
      return Err(EmptyAnchor);
    }
    var i := 0;
    while i < |anchor|
      invariant 0 <= i <= |anchor|
      invariant forall j :: 0 <= j < i ==> AnchorChar(anchor[j])
    {
      if !AnchorChar(anchor[i]) {
        return Err(InvalidChar(anchor[i], anchor));
      }
      i := i + 1;
    }
    return Ok(anchor);
  }

  // ---------------------------------------------------------------- collect_paths

  /** `f'{i}'`: the decimal digits of `i`. */
  function IndexText(i: nat): (r: string)
    ensures |r| > 0 && forall k :: 0 <= k < |r| ==> '0' <= r[k] <= '9'
  {
    var d := ['0' + (i % 10) as char];
    if i < 10 then d else IndexText(i / 10) + d
  }

  /** The label of a key node: the key's text behind the key marker. */
  function Marked(text: string): string {
    [KEY_MARKER] + text
  }

  /** The texts of all keys of a mapping, in order. */
  function Texts(pairs: seq<Pair>): (r: seq<string>)
    ensures |r| == |pairs| && forall j :: 0 <= j < |pairs| ==> r[j] == pairs[j].text
  {
    seq(|pairs|, j requires 0 <= j < |pairs| => pairs[j].text)
  }

  /** A mapping has a key `k` and also a key `@k`; collecting its paths fails. */
  predicate Clash(y: YNode) {
    y.YMap? && exists j :: 0 <= j < |y.pairs| && Marked(y.pairs[j].text) in Texts(y.pairs)
  }

  /** `b` extends `a`: every node of `a` keeps its paths, and may have more after them. */
  ghost predicate Grows(a: PathTable, b: PathTable) {
    forall n :: n in a ==> n in b && a[n] <= b[n]
  }

  ghost predicate NonEmpty(t: PathTable) {
    forall n :: n in t ==> |t[n]| > 0
  }

  /** Node `c` has the path `p` among its recorded paths. */
  ghost predicate Recorded(t: PathTable, c: Id, p: Path) {
    c in t && p in t[c]
  }

  /**
   * Each child of `y` (reached from the path `current`) has recorded the path
   * of its position: `current + [str(i)]` for item `i`, `current + ["@" + k]`
   * for key `k` and `current + [k]` for its value.
   */
  ghost predicate Extended(y: YNode, current: Path, t: PathTable) {
    match y
    case YScalar(_) => true
    case YSeq(items) => ItemsRecorded(items, current, |items|, t)
    case YMap(pairs) => PairsRecorded(pairs, current, |pairs|, t)
  }

  ghost predicate ItemsRecorded(items: seq<Id>, current: Path, i: nat, t: PathTable)
    requires i <= |items|
  {
    forall k :: 0 <= k < i ==> Recorded(t, items[k], current + [IndexText(k)])
  }

  ghost predicate PairsRecorded(pairs: seq<Pair>, current: Path, j: nat, t: PathTable)
    requires j <= |pairs|
  {
    forall k :: 0 <= k < j ==>
      Recorded(t, pairs[k].key, current + [Marked(pairs[k].text)]) && Recorded(t, pairs[k].value, current + [pairs[k].text])
  }

  /** The nodes first visited between `a` and `b` were explored from their first path and do not clash. */
  ghost predicate Explored(g: Graph, a: PathTable, b: PathTable) {
    forall n :: n in b && n !in a ==> n in g && |b[n]| > 0 && Extended(g[n], b[n][0], b) && !Clash(g[n])
  }

  lemma GrowsTrans(a: PathTable, b: PathTable, c: PathTable)
    requires Grows(a, b) && Grows(b, c)
    ensures Grows(a, c)
  {
    forall n | n in a
      ensures n in c && a[n] <= c[n]
    {
      assert b[n] == c[n][..|b[n]|];
      assert a[n] == b[n][..|a[n]|] == c[n][..|a[n]|];
    }
  }

  lemma RecordedGrows(a: PathTable, b: PathTable, c: Id, p: Path)
    requires Recorded(a, c, p) && Grows(a, b)
    ensures Recorded(b, c, p)
  {
    var i :| 0 <= i < |a[c]| && a[c][i] == p;
    assert b[c][i] == p;
  }

  lemma ItemsGrow(items: seq<Id>, current: Path, i: nat, a: PathTable, b: PathTable)
    requires i <= |items| && ItemsRecorded(items, current, i, a) && Grows(a, b)
    ensures ItemsRecorded(items, current, i, b)
  {
    forall k | 0 <= k < i
      ensures Recorded(b, items[k], current + [IndexText(k)])
    {
      RecordedGrows(a, b, items[k], current + [IndexText(k)]);
    }
  }

  lemma PairsGrow(pairs: seq<Pair>, current: Path, j: nat, a: PathTable, b: PathTable)
    requires j <= |pairs| && PairsRecorded(pairs, current, j, a) && Grows(a, b)
    ensures PairsRecorded(pairs, current, j, b)
  {
    forall k | 0 <= k < j
      ensures Recorded(b, pairs[k].key, current + [Marked(pairs[k].text)])
      ensures Recorded(b, pairs[k].value, current + [pairs[k].text])
    {
      RecordedGrows(a, b, pairs[k].key, current + [Marked(pairs[k].text)]);
      RecordedGrows(a, b, pairs[k].value, current + [pairs[k].text]);
    }
  }

  /** What is recorded for a node stays recorded as the table grows. */
  lemma ExtendedGrows(y: YNode, current: Path, a: PathTable, b: PathTable)
    requires Extended(y, current, a) && Grows(a, b)
    ensures Extended(y, current, b)
  {
    match y
    case YScalar(_) =>
    case YSeq(items) => ItemsGrow(items, current, |items|, a, b);
    case YMap(pairs) => PairsGrow(pairs, current, |pairs|, a, b);
  }

  lemma ExploredTrans(g: Graph, a: PathTable, b: PathTable, c: PathTable)
    requires Explored(g, a, b) && Explored(g, b, c) && Grows(a, b) && Grows(b, c)
    ensures Explored(g, a, c)
  {
    forall n | n in b && n !in a
      ensures n in g && |c[n]| > 0 && Extended(g[n], c[n][0], c) && !Clash(g[n])
    {
      assert c[n][0] == b[n][0];
      ExtendedGrows(g[n], b[n][0], b, c);
    }
  }

  /**
   * The table while the children of `node`, first visited with path
   * `current` when the table was `first`, are collected.
   */
  ghost predicate Visiting(g: Graph, node: Id, current: Path, first: PathTable, t: PathTable) {
    && Closed(g) && node in g && t.Keys <= g.Keys && NonEmpty(t)
    && Grows(first, t) && node in t && |t[node]| > 0 && t[node][0] == current
  }

  /** Some node first visited between `a` and `b` is a mapping with a key `k` and a key `@k`. */
  ghost predicate Failed(g: Graph, a: PathTable, b: PathTable) {
    exists n :: n in b && n !in a && n in g && Clash(g[n])
  }

  /** The message of the assertion on a key `k` next to a key `@k`. */
  function ClashMessage(text: string): string {
    "key=\"" + Marked(text) + "\" not allowed when key=" + text + " is used"
  }

  /**
   * `collect_paths(node, paths, current)` on the table `t` it is given: the
   * outcome (the assertion may fail) and the table it leaves. A node seen
   * before only gets `current` appended to its paths; a node seen for the
   * first time gets `[current]`, then its children are collected in order.
   */
  function CollectPaths(g: Graph, node: Id, current: Path, t: PathTable): (r: (Result<(), string>, PathTable))
    requires Closed(g) && node in g
    ensures t.Keys <= r.1.Keys && node in r.1
    decreases g.Keys - t.Keys, 2, 0
  {
    if node in t then (Ok(()), t[node := t[node] + [current]])
    else
      var t1 := t[node := [current]];
      match g[node]
      case YScalar(_) => (Ok(()), t1)
      case YSeq(items) => CollectItemPaths(g, node, current, items, 0, t1)
      case YMap(pairs) => CollectPairPaths(g, node, current, pairs, 0, t1)
  }

  /** The loop over `items[i..]` of the sequence node `node`: item `i` is collected under `current + [str(i)]`. */
  function CollectItemPaths(g: Graph, node: Id, current: Path, items: seq<Id>, i: nat, t: PathTable)
    : (r: (Result<(), string>, PathTable))
    requires Closed(g) && node in g && node in t && g[node] == YSeq(items) && i <= |items|
    ensures t.Keys <= r.1.Keys
    decreases g.Keys - t.Keys + {node}, 1, |items| - i
  {
    if i == |items| then (Ok(()), t)
    else
      assert ChildrenIn(g[node], g.Keys);
      var step := CollectPaths(g, items[i], current + [IndexText(i)], t);
      if step.0.Err? then step else CollectItemPaths(g, node, current, items, i + 1, step.1)
  }

  /** The loop over `pairs[j..]` of the mapping node `node`: the clash assertion, then the key and the value. */
  function CollectPairPaths(g: Graph, node: Id, current: Path, pairs: seq<Pair>, j: nat, t: PathTable)
    : (r: (Result<(), string>, PathTable))
    requires Closed(g) && node in g && node in t && g[node] == YMap(pairs) && j <= |pairs|
    ensures t.Keys <= r.1.Keys
    decreases g.Keys - t.Keys + {node}, 1, |pairs| - j
  {
    if j == |pairs| then (Ok(()), t)
    else if Marked(pairs[j].text) in Texts(pairs) then (Err(ClashMessage(pairs[j].text)), t)
    else
      var step := CollectPairAt(g, node, current, pairs, j, t);
      if step.0.Err? then step else CollectPairPaths(g, node, current, pairs, j + 1, step.1)
  }

  /** Entry `j` of a mapping: its key under `current + ["@" + k]`, then its value under `current + [k]`. */
  function CollectPairAt(g: Graph, node: Id, current: Path, pairs: seq<Pair>, j: nat, t: PathTable)
    : (r: (Result<(), string>, PathTable))
    requires Closed(g) && node in g && node in t && g[node] == YMap(pairs) && j < |pairs|
    ensures t.Keys <= r.1.Keys
    decreases g.Keys - t.Keys + {node}, 0, 0
  {
    assert ChildrenIn(g[node], g.Keys);
    var step := CollectPaths(g, pairs[j].key, current + [Marked(pairs[j].text)], t);
    if step.0.Err? then step
    else
      assert g.Keys - step.1.Keys < g.Keys - t.Keys + {node};
      CollectPaths(g, pairs[j].value, current + [pairs[j].text], step.1)
  }

  /**
   * What `collect_paths` does to the table: it only grows; `node` has the
   * path `current`, as its first one when it is new; on success every node
   * first visited has recorded the path of each of its children and has no
   * key clash; on failure some node first visited is a mapping that clashes.
   */
  lemma {:induction false} CollectPathsSpec(g: Graph, node: Id, current: Path, t: PathTable)
    requires Closed(g) && node in g && t.Keys <= g.Keys && NonEmpty(t)
    ensures var (r, u) := CollectPaths(g, node, current, t);
            && u.Keys <= g.Keys && NonEmpty(u) && Grows(t, u)
            && Recorded(u, node, current)
            && (node !in t ==> u[node][0] == current)
            && (node in t ==> r.Ok? && u == t[node := t[node] + [current]])
            && (r.Ok? ==> Explored(g, t, u))
            && (r.Err? ==> Failed(g, t, u))
    decreases g.Keys - t.Keys, 4, 0
  {
    if node !in t {
      match g[node]
      case YScalar(_) =>
      case YSeq(items) => FreshSeqSpec(g, node, current, items, t);
      case YMap(pairs) => FreshMapSpec(g, node, current, pairs, t);
    }
  }

  /** `collect_paths` on a sequence node seen for the first time. */
  lemma {:induction false} FreshSeqSpec(g: Graph, node: Id, current: Path, items: seq<Id>, t: PathTable)
    requires Closed(g) && node in g && t.Keys <= g.Keys && NonEmpty(t) && node !in t && g[node] == YSeq(items)
    ensures var (r, u) := CollectPaths(g, node, current, t);
            && u.Keys <= g.Keys && NonEmpty(u) && Grows(t, u) && u[node][0] == current
            && (r.Ok? ==> Explored(g, t, u))
            && (r.Err? ==> Failed(g, t, u))
    decreases g.Keys - t.Keys, 3, 0
  {
    var t1 := t[node := [current]];
    var (r, u) := CollectItemPaths(g, node, current, items, 0, t1);
    assert (r, u) == CollectPaths(g, node, current, t);
    ItemPathsSpec(g, node, current, items, 0, t1, t1);
    GrowsTrans(t, t1, u);
    if r.Ok? {
      ExploredFirst(g, t, t1, u, node);
    }
  }

  /** `collect_paths` on a mapping node seen for the first time. */
  lemma {:induction false} FreshMapSpec(g: Graph, node: Id, current: Path, pairs: seq<Pair>, t: PathTable)
    requires Closed(g) && node in g && t.Keys <= g.Keys && NonEmpty(t) && node !in t && g[node] == YMap(pairs)
    ensures var (r, u) := CollectPaths(g, node, current, t);
            && u.Keys <= g.Keys && NonEmpty(u) && Grows(t, u) && u[node][0] == current
            && (r.Ok? ==> Explored(g, t, u))
            && (r.Err? ==> Failed(g, t, u))
    decreases g.Keys - t.Keys, 3, 0
  {
    var t1 := t[node := [current]];
    var (r, u) := CollectPairPaths(g, node, current, pairs, 0, t1);
    assert (r, u) == CollectPaths(g, node, current, t);
    PairPathsSpec(g, node, current, pairs, 0, t1, t1);
    GrowsTrans(t, t1, u);
    if r.Ok? {
      ExploredFirst(g, t, t1, u, node);
    } else if Clash(g[node]) {
      assert node in u && node !in t;
    } else {
      var n :| n in u && n !in t1 && n in g && Clash(g[n]);
      assert n !in t;
    }
  }

  /** Exploring `node`, new in `t1`, and then the nodes new in `u`, explores every node new since `t`. */
  lemma ExploredFirst(g: Graph, t: PathTable, t1: PathTable, u: PathTable, node: Id)
    requires node in t1 && t1 == t[node := t1[node]] && node !in t && Grows(t1, u)
    requires Explored(g, t1, u) && node in g && |u[node]| > 0 && Extended(g[node], u[node][0], u) && !Clash(g[node])
    ensures Explored(g, t, u)
  {
  }

  /** The table while the items of a sequence node are collected. */
  lemma {:induction false} ItemPathsSpec(g: Graph, node: Id, current: Path, items: seq<Id>, i: nat,
                                         first: PathTable, t: PathTable)
    requires Visiting(g, node, current, first, t) && Explored(g, first, t)
    requires g[node] == YSeq(items) && i <= |items| && ItemsRecorded(items, current, i, t)
    ensures Visiting(g, node, current, first, CollectItemPaths(g, node, current, items, i, t).1)
    ensures Grows(t, CollectItemPaths(g, node, current, items, i, t).1)
    ensures var out := CollectItemPaths(g, node, current, items, i, t);
            out.0.Ok? ==> Explored(g, first, out.1) && ItemsRecorded(items, current, |items|, out.1)
    ensures var out := CollectItemPaths(g, node, current, items, i, t);
            out.0.Err? ==> Failed(g, first, out.1)
    decreases g.Keys - t.Keys + {node}, 2, |items| - i
  {
    if i < |items| {
      ItemAtSpec(g, node, current, first, items, i, t);
      var step := CollectPaths(g, items[i], current + [IndexText(i)], t);
      if step.0.Ok? {
        ItemPathsSpec(g, node, current, items, i + 1, first, step.1);
        GrowsTrans(t, step.1, CollectItemPaths(g, node, current, items, i + 1, step.1).1);
      }
    }
  }

  /** The table after item `i` of a sequence node: the item has recorded its path. */
  lemma ItemAtSpec(g: Graph, node: Id, current: Path, first: PathTable, items: seq<Id>, i: nat, t: PathTable)
    requires Visiting(g, node, current, first, t) && Explored(g, first, t)
    requires g[node] == YSeq(items) && i < |items| && ItemsRecorded(items, current, i, t)
    ensures items[i] in g
    ensures var (r, u) := CollectPaths(g, items[i], current + [IndexText(i)], t);
            && Visiting(g, node, current, first, u) && Grows(t, u)
            && (r.Ok? ==> Explored(g, first, u) && ItemsRecorded(items, current, i + 1, u))
            && (r.Err? ==> Failed(g, first, u))
    decreases g.Keys - t.Keys + {node}, 1, 0
  {
    assert ChildrenIn(g[node], g.Keys);
    var p := current + [IndexText(i)];
    var (r, u) := CollectPaths(g, items[i], p, t);
    ChildSpec(g, node, current, first, items[i], p, t);
    if r.Ok? {
      ItemsGrow(items, current, i, t, u);
    }
  }

  /** The table while the entries of a mapping node are collected. */
  lemma {:induction false} PairPathsSpec(g: Graph, node: Id, current: Path, pairs: seq<Pair>, j: nat,
                                         first: PathTable, t: PathTable)
    requires Visiting(g, node, current, first, t) && Explored(g, first, t)
    requires g[node] == YMap(pairs) && j <= |pairs| && PairsRecorded(pairs, current, j, t)
    requires forall k :: 0 <= k < j ==> Marked(pairs[k].text) !in Texts(pairs)
    ensures var (r, u) := CollectPairPaths(g, node, current, pairs, j, t);
            && Visiting(g, node, current, first, u) && Grows(t, u)
            && (r.Ok? ==> Explored(g, first, u) && PairsRecorded(pairs, current, |pairs|, u) && !Clash(g[node]))
            && (r.Err? ==> Failed(g, first, u) || Clash(g[node]))
    decreases g.Keys - t.Keys + {node}, 2, |pairs| - j
  {
    if j < |pairs| {
      if Marked(pairs[j].text) in Texts(pairs) {
        assert Clash(g[node]);
      } else {
        var (r1, t1) := CollectPairAt(g, node, current, pairs, j, t);
        PairAtSpec(g, node, current, first, pairs, j, t);
        if r1.Ok? {
          PairPathsSpec(g, node, current, pairs, j + 1, first, t1);
          GrowsTrans(t, t1, CollectPairPaths(g, node, current, pairs, j + 1, t1).1);
        }
      }
    }
  }

  /** The table after entry `j` of a mapping node: its key and its value have recorded their paths. */
  lemma {:induction false} PairAtSpec(g: Graph, node: Id, current: Path, first: PathTable, pairs: seq<Pair>, j: nat,
                                      t: PathTable)
    requires Visiting(g, node, current, first, t) && Explored(g, first, t)
    requires g[node] == YMap(pairs) && j < |pairs| && PairsRecorded(pairs, current, j, t)
    ensures var (r, u) := CollectPairAt(g, node, current, pairs, j, t);
            && Visiting(g, node, current, first, u) && Grows(t, u)
            && (r.Ok? ==> Explored(g, first, u) && PairsRecorded(pairs, current, j + 1, u))
            && (r.Err? ==> Failed(g, first, u))
    decreases g.Keys - t.Keys + {node}, 1, 0
  {
    assert ChildrenIn(g[node], g.Keys);
    var pk := current + [Marked(pairs[j].text)];
    var pv := current + [pairs[j].text];
    var (r1, t1) := CollectPaths(g, pairs[j].key, pk, t);
    ChildSpec(g, node, current, first, pairs[j].key, pk, t);
    if r1.Ok? {
      var (r2, t2) := CollectPaths(g, pairs[j].value, pv, t1);
      ChildSpec(g, node, current, first, pairs[j].value, pv, t1);
      GrowsTrans(t, t1, t2);
      if r2.Ok? {
        PairsGrow(pairs, current, j, t, t2);
        RecordedGrows(t1, t2, pairs[j].key, pk);
      }
    }
  }

  /** One recursive call on the child `child`, under the path `p`, while the children of `node` are collected. */
  lemma {:induction false} ChildSpec(g: Graph, node: Id, current: Path, first: PathTable, child: Id, p: Path,
                                     t: PathTable)
    requires Visiting(g, node, current, first, t) && Explored(g, first, t) && child in g
    ensures var (r, u) := CollectPaths(g, child, p, t);
            && Visiting(g, node, current, first, u) && Grows(t, u)
            && (r.Ok? ==> Explored(g, first, u) && Recorded(u, child, p))
            && (r.Err? ==> Failed(g, first, u))
    decreases g.Keys - t.Keys + {node}, 0, 0
  {
    assert g.Keys - t.Keys < g.Keys - t.Keys + {node};
    CollectPathsSpec(g, child, p, t);
    var (r, u) := CollectPaths(g, child, p, t);
    GrowsTrans(first, t, u);
    if r.Ok? {
      ExploredTrans(g, first, t, u);
    } else {
      var n :| n in u && n !in t && n in g && Clash(g[n]);
      assert n !in first;
    }
  }

  /** The `paths` dict that `collect_paths` fills in place. */
  class PathCollector {
    var paths: PathTable

    constructor ()
      ensures paths == map[]
    {
      paths := map[];
    }

    /** `collect_paths(node, paths, current)`. */
    method Collect(g: Graph, node: Id, current: Path) returns (r: Result<(), string>)
      requires Closed(g) && node in g
      modifies this
      decreases g.Keys - paths.Keys, 3
      ensures (r, paths) == CollectPaths(g, node, current, old(paths))
    {
      if node in paths {
        paths := paths[node := paths[node] + [current]];
        return Ok(());
      }
      paths := paths[node := [current]];
      match g[node] {
        case YScalar(_) =>
          r := Ok(());
        case YSeq(items) =>
          r := CollectItems(g, node, current, items);
        case YMap(pairs) =>
          r := CollectPairs(g, node, current, pairs);
      }
    }

    /** The loop over the items of the sequence node `node`, already recorded. */
    method CollectItems(g: Graph, node: Id, current: Path, items: seq<Id>) returns (r: Result<(), string>)
      requires Closed(g) && node in g && node in paths && g[node] == YSeq(items)
      modifies this
      decreases g.Keys - paths.Keys + {node}, 1
      ensures (r, paths) == CollectItemPaths(g, node, current, items, 0, old(paths))
    {
      var i := 0;
      assert ChildrenIn(g[node], g.Keys);
      while i < |items|
        invariant 0 <= i <= |items|
        invariant old(paths).Keys <= paths.Keys
        invariant CollectItemPaths(g, node, current, items, 0, old(paths))
               == CollectItemPaths(g, node, current, items, i, paths)
      {
        assert g.Keys - paths.Keys < g.Keys - old(paths).Keys + {node};
        r := Collect(g, items[i], current + [IndexText(i)]);
        if r.Err? {
          return;
        }
        i := i + 1;
      }
      r := Ok(());
    }

    /** The loop over the entries of the mapping node `node`, already recorded. */
    method CollectPairs(g: Graph, node: Id, current: Path, pairs: seq<Pair>) returns (r: Result<(), string>)
      requires Closed(g) && node in g && node in paths && g[node] == YMap(pairs)
      modifies this
      decreases g.Keys - paths.Keys + {node}, 2
      ensures (r, paths) == CollectPairPaths(g, node, current, pairs, 0, old(paths))
    {
      var j := 0;
      while j < |pairs|
        invariant 0 <= j <= |pairs|
        invariant old(paths).Keys <= paths.Keys
        invariant CollectPairPaths(g, node, current, pairs, 0, old(paths))
               == CollectPairPaths(g, node, current, pairs, j, paths)
      {
        if Marked(pairs[j].text) in Texts(pairs) {
          return Err(ClashMessage(pairs[j].text));
        }
        r := CollectPair(g, node, current, pairs, j);
        if r.Err? {
          return;
        }
        j := j + 1;
      }
      r := Ok(());
    }

    /** The body of the loop over the entries: the key node, then the value node of entry `j`. */
    method CollectPair(g: Graph, node: Id, current: Path, pairs: seq<Pair>, j: nat) returns (r: Result<(), string>)
      requires Closed(g) && node in g && node in paths && g[node] == YMap(pairs) && j < |pairs|
      modifies this
      decreases g.Keys - paths.Keys + {node}, 1
      ensures (r, paths) == CollectPairAt(g, node, current, pairs, j, old(paths))
    {
      assert ChildrenIn(g[node], g.Keys);
      assert g.Keys - paths.Keys < g.Keys - paths.Keys + {node};
      r := Collect(g, pairs[j].key, current + [Marked(pairs[j].text)]);
      if r.Err? {
        return;
      }
      assert g.Keys - paths.Keys < g.Keys - old(paths).Keys + {node};
      r := Collect(g, pairs[j].value, current + [pairs[j].text]);
    }
  }

  // ---------------------------------------------------------------- anchor_node

  /** The table after `collect_paths(root, {}, [])` returned: every node recorded was explored. */
  ghost predicate Collected(g: Graph, root: Id, t: PathTable) {
    && t.Keys <= g.Keys && NonEmpty(t)
    && root in t && t[root][0] == []
    && Explored(g, map[], t)
  }

  /**
   * `collect_paths(root, {}, [])`: on success its table is collected from
   * `root`; on failure some node it visited is a mapping with a key `k` and
   * a key `@k`.
   */
  lemma CollectedFromRoot(g: Graph, root: Id)
    requires Closed(g) && root in g
    ensures var (r, t) := CollectPaths(g, root, [], map[]);
            && (r.Ok? ==> Collected(g, root, t))
            && (r.Err? ==> exists n :: n in t && n in g && Clash(g[n]))
  {
    CollectPathsSpec(g, root, [], map[]);
  }

  /**
   * The sequence `[x, x]` holding one scalar node twice, beside a scalar the
   * root does not reach: the shared scalar has the paths `0` and `1` and the
   * anchor `0`, the root has one path and no anchor, and the unreachable
   * scalar is not in the table.
   */
  lemma SharedItemExample(g: Graph)
    requires g == map[0 := YSeq([1, 1]), 1 := YScalar("x"), 2 := YScalar("y")]
    ensures Closed(g)
    ensures CollectPaths(g, 0, [], map[]) == (Ok(()), map[0 := [[]], 1 := [["0"], ["1"]]])
    ensures AnchorOf([["0"], ["1"]]) == Some("0") && AnchorOf([[]]) == None
  {
    assert ChildrenIn(g[0], g.Keys);
    assert IndexText(0) == "0" && IndexText(1) == "1";
    assert [] + [IndexText(0)] == ["0"] && [] + [IndexText(1)] == ["1"];
    var t1 := map[0 := [[]], 1 := [["0"]]];
    assert t1[1] + [["1"]] == [["0"], ["1"]];
    assert CollectPaths(g, 1, ["0"], map[0 := [[]]]) == (Ok(()), t1);
    assert CollectPaths(g, 1, ["1"], t1) == (Ok(()), t1[1 := [["0"], ["1"]]]);
    assert CollectItemPaths(g, 0, [], [1, 1], 2, t1[1 := [["0"], ["1"]]]) == (Ok(()), t1[1 := [["0"], ["1"]]]);
    assert CollectItemPaths(g, 0, [], [1, 1], 1, t1) == (Ok(()), t1[1 := [["0"], ["1"]]]);
    assert t1[1 := [["0"], ["1"]]] == map[0 := [[]], 1 := [["0"], ["1"]]];
    assert ShortestIndex([["0"], ["1"]]) == 0;
  }

  lemma ExtendedEdge(g: Graph, a: Id, b: Id, current: Path, t: PathTable)
    requires Edge(g, a, b) && Extended(g[a], current, t)
    ensures b in t
  {
    match g[a]
    case YSeq(items) =>
      var i :| 0 <= i < |items| && items[i] == b;
      assert Recorded(t, items[i], current + [IndexText(i)]);
    case YMap(pairs) =>
      var j :| 0 <= j < |pairs| && (pairs[j].key == b || pairs[j].value == b);
      assert Recorded(t, pairs[j].key, current + [Marked(pairs[j].text)]);
      assert Recorded(t, pairs[j].value, current + [pairs[j].text]);
  }

  /** Every node reachable from the root has at least one recorded path. */
  lemma {:induction false} WalkCovered(g: Graph, root: Id, t: PathTable, w: seq<Id>)
    requires Collected(g, root, t) && Walk(g, w) && w[0] == root
    ensures w[|w| - 1] in t && |t[w[|w| - 1]]| > 0
  {
    if |w| > 1 {
      var w' := w[..|w| - 1];
      WalkCovered(g, root, t, w');
      var a := w[|w| - 2];
      assert a == w'[|w'| - 1];
      assert Edge(g, a, w[|w| - 1]);
      ExtendedEdge(g, a, w[|w| - 1], t[a][0], t);
    }
  }

  /**
   * `sorted(paths, key=len)[0]`: the position of the first path of least
   * length (the sort is stable, so ties go to the earliest path).
   */
  function ShortestIndex(ps: seq<Path>): (i: nat)
    requires |ps| > 0
    ensures i < |ps|
    ensures forall j :: 0 <= j < |ps| ==> |ps[i]| <= |ps[j]|
    ensures forall j :: 0 <= j < i ==> |ps[j]| > |ps[i]|
  {
    if |ps| == 1 then 0
    else
      var k := ShortestIndex(ps[1..]) + 1;
      assert forall j :: 1 <= j < |ps| ==> ps[1..][j - 1] == ps[j];
      if |ps[0]| <= |ps[k]| then 0 else k
  }

  /** `sep.join(parts)`. */
  function Join(sep: char, parts: seq<string>): string {
    if |parts| == 0 then []
    else if |parts| == 1 then parts[0]
    else parts[0] + [sep] + Join(sep, parts[1..])
  }

  /** Labels made of anchor characters join into an anchor that `prepare_anchor` accepts. */
  lemma {:induction false} JoinValid(parts: seq<string>)
    requires |parts| > 0 && forall k :: 0 <= k < |parts| ==> ValidAnchor(parts[k])
    ensures ValidAnchor(Join(PATH_SEP, parts))
  {
    if |parts| > 1 {
      JoinValid(parts[1..]);
      assert ValidAnchor(parts[1..][0]);
      var r := Join(PATH_SEP, parts);
      assert r == parts[0] + [PATH_SEP] + Join(PATH_SEP, parts[1..]);
    }
  }

  /** Item labels, and key labels of keys made of anchor characters, are valid anchors. */
  lemma LabelsValid(i: nat, text: string)
    ensures ValidAnchor(IndexText(i))
    ensures ValidAnchor(Marked(text)) <==> (text == [] || ValidAnchor(text))
  {
    var m := Marked(text);
    if text != [] && ValidAnchor(m) {
      forall k | 0 <= k < |text|
        ensures AnchorChar(text[k])
      {
        assert text[k] == m[k + 1];
      }
    }
  }

  /** The anchor of a node with recorded paths `ps`: none for a single path, else its shortest path joined by `.`. */
  function AnchorOf(ps: seq<Path>): (r: Option<string>)
    requires |ps| > 0
    ensures r.None? <==> |ps| == 1
    ensures r.Some? ==>
      exists i :: 0 <= i < |ps| && r.value == Join(PATH_SEP, ps[i])
                  && (forall j :: 0 <= j < |ps| ==> |ps[i]| <= |ps[j]|)
                  && (forall j :: 0 <= j < i ==> |ps[j]| > |ps[i]|)
  {
    if |ps| == 1 then None else Some(Join(PATH_SEP, ps[ShortestIndex(ps)]))
  }

  /** The dumper's anchor table. */
  class ConfDumper {
    var anchors: map<Id, Option<string>>

    constructor ()
      ensures anchors == map[]
    {
      anchors := map[];
    }

    /**
     * `anchor_node(root)`: collects the paths of every node reachable from
     * `root` and gives each node of that table its anchor; a failed
     * collection leaves the anchors as they were.
     */
    method AnchorNode(g: Graph, root: Id) returns (r: Result<(), string>)
      requires Closed(g) && root in g
      modifies this
      ensures r == CollectPaths(g, root, [], map[]).0
      ensures r.Err? ==> anchors == old(anchors)
      ensures r.Ok? ==>
        var table := CollectPaths(g, root, [], map[]).1;
        && Collected(g, root, table)
        && anchors.Keys == old(anchors).Keys + table.Keys
        && (forall n :: n in table ==> anchors[n] == AnchorOf(table[n]))
        && (forall n :: n in old(anchors) && n !in table ==> anchors[n] == old(anchors)[n])
    {
      var collector := new PathCollector();
      r := collector.Collect(g, root, []);
      if r.Err? {
        return;
      }
      CollectedFromRoot(g, root);
      var table := collector.paths;
      var done: set<Id> := {};
      while done != table.Keys
        invariant done <= table.Keys
        invariant anchors.Keys == old(anchors).Keys + done
        invariant forall n :: n in done ==> anchors[n] == AnchorOf(table[n])
        invariant forall n :: n in old(anchors) && n !in done ==> anchors[n] == old(anchors)[n]
        decreases table.Keys - done
      {
        assert exists x :: x in table.Keys && x !in done;
        var n :| n in table.Keys && n !in done;
        var allPaths := table[n];
        if |allPaths| == 1 {
          anchors := anchors[n := None];
        } else {
          anchors := anchors[n := Some(Join(PATH_SEP, allPaths[ShortestIndex(allPaths)]))];
        }
        done := done + {n};
      }
    }
  }
}
