/**
 * The configuration trees the engine evaluates and the values it produces.
 *
 * A configuration node is what OmegaConf hands to the evaluator: a leaf value,
 * a list (ListConfig), a mapping (DictConfig) or a mapping that carries a
 * `_target_` key, here kept apart as `Call` so that the target can be read
 * without a lookup. Equality is structural, as the cache needs it to be.
 */
module Config {
  import opened Wrappers

  /** A leaf of a configuration: what a YAML scalar or a Python literal can be. */
  datatype Atom = Null | Bool(b: bool) | Int(i: int) | Float(f: real) | Str(s: string)

  datatype Node =
    | Scalar(atom: Atom)
    | Sequence(items: seq<Node>)
    | Mapping(fields: seq<Field>)
    | Call(target: Node, fields: seq<Field>)

  /** One key of a mapping; `fields` keep the mapping's insertion order. */
  datatype Field = Field(key: string, value: Node)

  /**
   * A configuration as a DictConfig can hold it: the keys of a mapping are
   * pairwise different, and no mapping holds `_target_` as an ordinary key
   * (a mapping with that key is a target node).
   */
  predicate WellFormed(n: Node) {
    match n
    case Scalar(_) => true
    case Sequence(items) => forall i :: 0 <= i < |items| ==> WellFormed(items[i])
    case Mapping(fields) => FieldsWellFormed(fields) && forall i :: 0 <= i < |fields| ==> WellFormed(fields[i].value)
    case Call(t, fields) =>
      WellFormed(t) && FieldsWellFormed(fields) && forall i :: 0 <= i < |fields| ==> WellFormed(fields[i].value)
  }

  predicate FieldsWellFormed(fields: seq<Field>) {
    && (forall i, j :: 0 <= i < j < |fields| ==> fields[i].key != fields[j].key)
    && (forall i :: 0 <= i < |fields| ==> fields[i].key != TARGET)
  }

  /** A position in a container: an index of a list or a key of a mapping. */
  datatype Key = Index(i: nat) | Name(name: string)

  const TARGET := "_target_"
  const CONVERT := "_convert_"
  const RECURSIVE := "_recursive_"
  const CACHE_RESULT := "_cache_result_"
  const RESULT_HASH := "_result_hash_"

  /** The keys the evaluator never passes to a constructor. */
  predicate Reserved(key: string) {
    key == TARGET || key == CONVERT || key == RECURSIVE || key == CACHE_RESULT || key == RESULT_HASH
  }

  /** The value stored under `key` in a list of fields (the first one, as a dict has only one). */
  function Lookup(fields: seq<Field>, key: string): (r: Option<Node>)
    ensures r.Some? <==> exists j :: 0 <= j < |fields| && fields[j].key == key
  {
    if |fields| == 0 then None
    else if fields[0].key == key then Some(fields[0].value)
    else Lookup(fields[1..], key)
  }

  /** `d[key] = value` on a mapping: replaces the value in place, or appends a new key. */
  function SetField(fields: seq<Field>, key: string, value: Node): (r: seq<Field>)
  {
    if |fields| == 0 then [Field(key, value)]
    else if fields[0].key == key then [Field(key, value)] + fields[1..]
    else [fields[0]] + SetField(fields[1..], key, value)
  }

  lemma {:induction false} LookupSetField(fields: seq<Field>, key: string, other: string, value: Node)
    ensures Lookup(SetField(fields, key, value), key) == Some(value)
    ensures other != key ==> Lookup(SetField(fields, key, value), other) == Lookup(fields, other)
  {
    if |fields| > 0 && fields[0].key != key {
      LookupSetField(fields[1..], key, other, value);
    }
  }

  /** `del d[key]` on a mapping, a no-op when the key is absent. */
  function RemoveField(fields: seq<Field>, key: string): (r: seq<Field>)
    ensures |r| <= |fields|
  {
    if |fields| == 0 then []
    else if fields[0].key == key then RemoveField(fields[1..], key)
    else [fields[0]] + RemoveField(fields[1..], key)
  }

  lemma {:induction false} LookupRemoveField(fields: seq<Field>, key: string, other: string)
    ensures Lookup(RemoveField(fields, key), key) == None
    ensures other != key ==> Lookup(RemoveField(fields, key), other) == Lookup(fields, other)
  {
    if |fields| > 0 {
      LookupRemoveField(fields[1..], key, other);
    }
  }

  /** The reserved flag `key` of a mapping node (`key in node` / `node[key]`); lists and leaves have none. */
  function Flag(node: Node, key: string): Option<Node> {
    match node
    case Mapping(fields) => Lookup(fields, key)
    case Call(_, fields) => Lookup(fields, key)
    case _ => None
  }

  /** `node.pop(key, None)` on a mapping node: the node without `key`, and the value it had. */
  function Pop(node: Node, key: string): (r: (Node, Option<Node>))
    requires node.Mapping? || node.Call?
    ensures r.1 == Flag(node, key)
    ensures r.0.Call? == node.Call? && (node.Call? ==> r.0.target == node.target)
  {
    match node
    case Mapping(fields) => (Mapping(RemoveField(fields, key)), Lookup(fields, key))
    case Call(target, fields) => (Call(target, RemoveField(fields, key)), Lookup(fields, key))
  }

  lemma PopFlag(node: Node, key: string, other: string)
    requires node.Mapping? || node.Call?
    ensures Flag(Pop(node, key).0, key) == None
    ensures other != key ==> Flag(Pop(node, key).0, other) == Flag(node, other)
  {
    LookupRemoveField(node.fields, key, other);
  }

  /** `pop(key)` leaves every other key of the node as it was. */
  lemma PopOthers(node: Node, key: string)
    requires node.Mapping? || node.Call?
    ensures forall other :: other != key ==> Flag(Pop(node, key).0, other) == Flag(node, other)
  {
    forall other | other != key
      ensures Flag(Pop(node, key).0, other) == Flag(node, other)
    {
      PopFlag(node, key, other);
    }
  }

  /** Python truthiness of a node used as a flag value (`_cache_result_` is not type checked). */
  predicate Truthy(n: Node) {
    match n
    case Scalar(Null) => false
    case Scalar(Bool(b)) => b
    case Scalar(Int(i)) => i != 0
    case Scalar(Float(f)) => f != 0.0
    case Scalar(Str(s)) => s != ""
    case Sequence(items) => |items| > 0
    case Mapping(fields) => |fields| > 0
    case Call(_, _) => true
  }

  /** The kind of container a node is, which decides what keys can be assigned in it. */
  datatype Shape = Leaf | List(length: nat) | Dict

  function ShapeOf(n: Node): Shape {
    match n
    case Scalar(_) => Leaf
    case Sequence(items) => List(|items|)
    case Mapping(_) => Dict
    case Call(_, _) => Dict
  }

  /** `key` can be assigned in a node of shape `shape`: an existing list index, or any mapping key. */
  predicate Fits(shape: Shape, key: Key) {
    match key
    case Index(i) => shape.List? && i < shape.length
    case Name(_) => shape.Dict?
  }

  /** `node[key]`: the child at a list index or under a mapping key, if there is one. */
  function Item(n: Node, key: Key): Option<Node> {
    match (n, key)
    case (Sequence(items), Index(i)) => if i < |items| then Some(items[i]) else None
    case (Mapping(fields), Name(k)) => Lookup(fields, k)
    case (Call(t, fields), Name(k)) => if k == TARGET then Some(t) else Lookup(fields, k)
    case _ => None
  }

  /**
   * `node[key] = value` on a (copied) container. Assigning `_target_` in a
   * mapping makes it a target node, as it does in a DictConfig.
   */
  function Assign(n: Node, key: Key, value: Node): (r: Node)
    requires Fits(ShapeOf(n), key)
    ensures ShapeOf(r) == ShapeOf(n)
    ensures n.Call? ==> r.Call?
  {
    match (n, key)
    case (Sequence(items), Index(i)) => Sequence(items[i := value])
    case (Mapping(fields), Name(k)) => if k == TARGET then Call(value, fields) else Mapping(SetField(fields, k, value))
    case (Call(t, fields), Name(k)) => if k == TARGET then Call(value, fields) else Call(t, SetField(fields, k, value))
  }

  /** After `node[key] = value`, `node[key]` is `value` and every other position is as it was. */
  lemma AssignItem(n: Node, key: Key, other: Key, value: Node)
    requires Fits(ShapeOf(n), key)
    ensures Item(Assign(n, key, value), key) == Some(value)
    ensures other != key ==> Item(Assign(n, key, value), other) == Item(n, other)
  {
    match (n, key)
    case (Sequence(items), Index(i)) =>
    case (Mapping(fields), Name(k)) =>
      LookupSetField(fields, k, if other.Name? then other.name else k, value);
    case (Call(t, fields), Name(k)) =>
      LookupSetField(fields, k, if other.Name? then other.name else k, value);
  }

  /** The placeholder that stands for a non-deterministic result: `{"_result_hash_": h}`. */
  function Placeholder(h: string): Node {
    Mapping([Field(RESULT_HASH, Scalar(Str(h)))])
  }

  /** The `_convert_` modes; any value other than the three names behaves as "none". */
  datatype ConvertMode = NoConversion | Partial | All

  function UpperAscii(c: char): char {
    if 'a' <= c <= 'z' then (c as int - 'a' as int + 'A' as int) as char else c
  }

  /** `s.upper() == t` for an upper-case ASCII `t`, the comparison hydra's ConvertMode makes with strings. */
  predicate EqualsUpper(s: string, t: string) {
    |s| == |t| && forall i :: 0 <= i < |s| ==> UpperAscii(s[i]) == t[i]
  }

  /** The mode a `_convert_` value selects (ConvertMode compares strings case-insensitively). */
  function ModeOf(v: Node): (r: ConvertMode)
    ensures r == All <==> v.Scalar? && v.atom.Str? && EqualsUpper(v.atom.s, "ALL")
    ensures r == Partial <==> v.Scalar? && v.atom.Str? && EqualsUpper(v.atom.s, "PARTIAL")
    ensures !(v.Scalar? && v.atom.Str?) ==> r == NoConversion
  {
    match v
    case Scalar(Str(s)) =>
      if EqualsUpper(s, "ALL") then All else if EqualsUpper(s, "PARTIAL") then Partial else NoConversion
    case _ => NoConversion
  }

  /**
   * What instantiation produces. Container results are plain lists and dicts
   * or re-wrapped ListConfig/DictConfig; a child passed unevaluated is `Raw`;
   * `ToContainer` stands for OmegaConf.to_container of a config; everything a
   * constructor returns is an `Object` of some type.
   */
  datatype Value =
    | Prim(atom: Atom)
    | PlainList(elems: seq<Value>)
    | ListConf(elems: seq<Value>)
    | PlainDict(entries: seq<Entry>)
    | DictConf(entries: seq<Entry>, structured: bool)
    | Raw(node: Node)
    | ToContainer(config: Value, mode: ConvertMode)
    | Object(typeName: string, id: nat)

  datatype Entry = Entry(key: string, value: Value)

  /** What `node.items()` yields for a child: the bare value of a leaf, the config object otherwise. */
  function RawValue(n: Node): Value {
    if n.Scalar? then Prim(n.atom) else Raw(n)
  }

  predicate IsConfig(v: Value) {
    v.ListConf? || v.DictConf? || v.Raw?
  }

  /** `_convert_node`: only configs are converted, and only by the "partial" and "all" modes. */
  function ConvertValue(v: Value, mode: ConvertMode): (r: Value)
    ensures !IsConfig(v) || mode == NoConversion ==> r == v
    ensures IsConfig(v) && mode != NoConversion ==> r == ToContainer(v, mode)
  {
    if IsConfig(v) && mode != NoConversion then ToContainer(v, mode) else v
  }
}
