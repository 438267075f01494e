/**
 * The data the engine consumes: nested mappings, lists and literals as a YAML or
 * JSON loader produces them, with the Python operations the core applies to them
 * (key membership, `dict.get`, truthiness, `repr` and `str`).
 */
module Values {
  import opened Wrappers
  import Text

  /**
   * A loaded value. A mapping keeps its entries in a fixed order, so that code
   * iterating over it (argument rendering, keyword synthesis) is deterministic.
   */
  datatype Value =
    | VNone
    | VBool(b: bool)
    | VInt(i: int)
    | VStr(s: string)
    | VList(items: seq<Value>)
    | VDict(entries: seq<(string, Value)>)

  /** A mapping with string keys, as an ordered sequence of entries. */
  type Dict = seq<(string, Value)>

  /** The position of the first entry with key `k`, if any. */
  function Find(d: Dict, k: string): (r: Option<nat>)
    ensures r.Some? ==> r.value < |d| && d[r.value].0 == k
    ensures r.Some? ==> forall j :: 0 <= j < r.value ==> d[j].0 != k
    ensures r.None? <==> forall j :: 0 <= j < |d| ==> d[j].0 != k
  {
    if d == [] then None
    else if d[0].0 == k then Some(0)
    else match Find(d[1..], k)
      case None => None
      case Some(j) => Some(j + 1)
  }

  /** Python's `k in d` for a mapping. */
  predicate Has(d: Dict, k: string) {
    Find(d, k).Some?
  }

  /** Python's `d.get(k)`: the value stored under `k`, or None. */
  function Get(d: Dict, k: string): (r: Option<Value>)
    ensures r.Some? <==> Has(d, k)
    ensures r.Some? ==> exists j :: 0 <= j < |d| && d[j] == (k, r.value)
  {
    match Find(d, k)
    case Some(j) => Some(d[j].1)
    case None => None
  }

  /** Python truthiness: None, False, 0 and empty strings, lists and mappings are false. */
  predicate Truthy(v: Value) {
    match v
    case VNone => false
    case VBool(b) => b
    case VInt(i) => i != 0
    case VStr(s) => s != ""
    case VList(items) => items != []
    case VDict(entries) => entries != []
  }

  /** Python's `repr(v)` (strings quoted with single quotes, without escaping). */
  function Repr(v: Value): string
    decreases v
  {
    match v
    case VNone => "None"
    case VBool(b) => if b then "True" else "False"
    case VInt(i) => Text.IntToString(i)
    case VStr(s) => "'" + s + "'"
    case VList(items) =>
      "[" + Text.Join(seq(|items|, k requires 0 <= k < |items| => Repr(items[k])), ", ") + "]"
    case VDict(entries) =>
      "{" + Text.Join(seq(|entries|, k requires 0 <= k < |entries| =>
                            "'" + entries[k].0 + "': " + Repr(entries[k].1)), ", ") + "}"
  }

  /** Python's `str(v)`: a string is itself, everything else is its `repr`. */
  function PyStr(v: Value): string {
    if v.VStr? then v.s else Repr(v)
  }

  /** What calling a leaf function does: it returns a value or raises. */
  datatype Return = Returned(value: Value) | Raised

  /**
   * A leaf predicate function, called as `f(message, **kwargs)`: it receives the
   * message and the leaf's keyword arguments.
   */
  type LeafFn = (Value, Dict) -> Return
}
