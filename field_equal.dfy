/**
 * The built-in leaf predicate fieldEqual: walk a key path through a nested
 * message and compare what is found there with an expected value. Any failure
 * during the walk makes the predicate false rather than raising.
 */
module FieldEqual {
  import opened Wrappers
  import opened Values

  /** A key usable as a sequence index: an int, or a bool (Python's bool is an int). */
  function IntKey(k: Value): Option<int> {
    match k
    case VInt(i) => Some(i)
    case VBool(b) => Some(if b then 1 else 0)
    case _ => None
  }

  /** Python's index normalisation for a sequence of length n; None is an IndexError. */
  function Normalize(i: int, n: nat): (r: Option<nat>)
    ensures r.Some? ==> r.value < n
    ensures r.Some? <==> -(n as int) <= i < n
    ensures r.Some? ==> r.value == if i < 0 then i + n else i
  {
    if 0 <= i < n then Some(i) else if -(n as int) <= i < 0 then Some(i + n) else None
  }

  /** Python's `m[k]`; None stands for the KeyError, IndexError or TypeError it raises. */
  function Step(m: Value, k: Value): (r: Option<Value>)
    ensures r.Some? ==> m.VDict? || m.VList? || m.VStr?
    ensures m.VDict? ==> (r.Some? <==> k.VStr? && Has(m.entries, k.s))
    ensures m.VDict? && r.Some? ==> r == Get(m.entries, k.s)
    ensures m.VList? ==> (r.Some? <==> IntKey(k).Some? && -|m.items| <= IntKey(k).value < |m.items|)
    ensures m.VList? && r.Some? ==> r.value == m.items[Normalize(IntKey(k).value, |m.items|).value]
    ensures m.VStr? ==> (r.Some? <==> IntKey(k).Some? && -|m.s| <= IntKey(k).value < |m.s|)
    ensures m.VStr? && r.Some? ==> r.value == VStr([m.s[Normalize(IntKey(k).value, |m.s|).value]])
  {
    match m
    case VDict(entries) => if k.VStr? then Get(entries, k.s) else None
    case VList(items) =>
      (match IntKey(k)
       case None => None
       case Some(i) =>
         match Normalize(i, |items|)
         case None => None
         case Some(j) => Some(items[j]))
    case VStr(s) =>
      (match IntKey(k)
       case None => None
       case Some(i) =>
         match Normalize(i, |s|)
         case None => None
         case Some(j) => Some(VStr([s[j]])))
    case _ => None
  }

  /** `reduce(lambda m, k: m[k], path, message)`, stopping at the first failing subscript. */
  function Walk(m: Value, path: seq<Value>): (r: Option<Value>)
    ensures path == [] ==> r == Some(m)
    ensures |path| == 1 ==> r == Step(m, path[0])
    ensures path != [] && !(m.VDict? || m.VList? || m.VStr?) ==> r.None?
    decreases path
  {
    if path == [] then Some(m)
    else match Step(m, path[0])
      case None => None
      case Some(next) => Walk(next, path[1..])
  }

  /** A list key is a path; any other key is the one-element path [key]. */
  function KeyPath(key: Value): seq<Value> {
    if key.VList? then key.items else [key]
  }

  /** fieldEqual(message, key, value). */
  function FieldEqual(message: Value, key: Value, value: Value): (r: bool)
    ensures r <==> Walk(message, KeyPath(key)) == Some(value)
    ensures key == VList([]) ==> (r <==> message == value)
  {
    match Walk(message, KeyPath(key))
    case Some(found) => found == value
    case None => false
  }

  /**
   * fieldEqual as a leaf function: the keyword arguments must bind exactly the
   * parameters `key` and `value`, otherwise the call raises a TypeError.
   */
  function FieldEqualLeaf(message: Value, kwargs: Dict): (r: Return)
    ensures r.Returned? <==> |kwargs| == 2 && Has(kwargs, "key") && Has(kwargs, "value")
    ensures r.Returned? ==> r.value.VBool?
    ensures r.Returned? ==>
              r.value.b == FieldEqual(message, Get(kwargs, "key").value, Get(kwargs, "value").value)
  {
    if |kwargs| == 2 && Has(kwargs, "key") && Has(kwargs, "value") then
      Returned(VBool(FieldEqual(message, Get(kwargs, "key").value, Get(kwargs, "value").value)))
    else
      Raised
  }

  /** Walking a concatenated path is walking the first part, then the second from where it ended. */
  lemma {:induction false} WalkConcat(m: Value, a: seq<Value>, b: seq<Value>)
    ensures Walk(m, a + b) == match Walk(m, a) case None => None case Some(x) => Walk(x, b)
    decreases a
  {
    if a == [] {
      assert a + b == b;
    } else {
      assert (a + b)[0] == a[0];
      assert (a + b)[1..] == a[1..] + b;
      match Step(m, a[0])
      case None =>
      case Some(next) => WalkConcat(next, a[1..], b);
    }
  }

  /**
   * A failing walk gives false rather than an error, and a scalar key compares
   * exactly as the one-element path holding it.
   */
  lemma FieldEqualMeaning(message: Value, key: Value, value: Value)
    ensures Walk(message, KeyPath(key)).None? ==> !FieldEqual(message, key, value)
    ensures !key.VList? ==> FieldEqual(message, key, value) == FieldEqual(message, VList([key]), value)
  {
  }

  /**
   * A nested comparison can be done in two stages: once a prefix of the path has
   * reached `inner`, comparing along the whole path is comparing along the rest from `inner`.
   */
  lemma NestedFieldEqual(message: Value, prefix: seq<Value>, rest: seq<Value>, inner: Value, value: Value)
    requires Walk(message, prefix) == Some(inner)
    ensures FieldEqual(message, VList(prefix + rest), value) <==> FieldEqual(inner, VList(rest), value)
  {
    WalkConcat(message, prefix, rest);
  }

  /** A prefix that cannot be walked makes every longer path compare false. */
  lemma BrokenPrefixIsFalse(message: Value, prefix: seq<Value>, rest: seq<Value>, value: Value)
    requires Walk(message, prefix).None?
    ensures !FieldEqual(message, VList(prefix + rest), value)
  {
    WalkConcat(message, prefix, rest);
  }
}
