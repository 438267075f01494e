/**
 * Predicate trees and the builder that turns a declarative guard description
 * (a nested mapping) into a tree. The builder tests the keys of each level in a
 * fixed order: `name` (a leaf), then `or`, then `not`, then `and`.
 */
module Predicate {
  import opened Wrappers
  import opened Values

  /**
   * A predicate tree. A leaf holds the name of its function, the function that
   * the registry resolved that name to, and its keyword arguments.
   */
  datatype Pred =
    | Leaf(name: string, fn: LeafFn, args: Dict)
    | And(children: seq<Pred>)
    | Or(children: seq<Pred>)
    | Not(child: Pred)

  /** The leaf-function registry: a partial map from predicate name to function. */
  type Registry = map<string, LeafFn>

  /** Why a description could not be built. */
  datatype BuildError =
    | UnknownPredicate(tree: Value)       // no recognised key (ValueError "Unknown predicate")
    | NotAMapping(tree: Value)            // `in` or subscripting on a non-mapping raises TypeError
    | NaryExpectsList(operand: Value)     // `and`/`or` given something other than a list
    | UnaryExpectsOneChild(operand: Value) // `not` given a list
    | LookupFailure(name: Value)          // the leaf name does not resolve in the registry
    | ArgsNotMapping(args: Value)         // `args` is neither absent, None nor a mapping

  datatype NaryOp = AndOp | OrOp

  /** Every leaf of `p` holds the function the registry gives for its name. */
  ghost predicate Registered(p: Pred, reg: Registry)
    decreases p
  {
    match p
    case Leaf(name, fn, _) => name in reg && reg[name] == fn
    case And(cs) => forall i :: 0 <= i < |cs| ==> Registered(cs[i], reg)
    case Or(cs) => forall i :: 0 <= i < |cs| ==> Registered(cs[i], reg)
    case Not(c) => Registered(c, reg)
  }

  /** `s[i..]` starts with `k`. */
  predicate OccursAt(k: string, s: string, i: nat) {
    i + |k| <= |s| && s[i..i + |k|] == k
  }

  /** Python's `key in v` for a value that is not a mapping: list membership or substring. */
  predicate Contains(v: Value, key: string) {
    match v
    case VList(items) => VStr(key) in items
    case VStr(s) => exists i :: 0 <= i <= |s| && OccursAt(key, s, i)
    case _ => false
  }

  /**
   * What construction does with a description that is not a mapping: a list or
   * string that contains one of the keys is then subscripted with it (TypeError), one
   * that contains none falls through to "Unknown predicate"; any other value cannot
   * even be searched (TypeError).
   */
  function NonMappingError(tree: Value): (e: BuildError)
    requires !tree.VDict?
    ensures e.UnknownPredicate? || e.NotAMapping?
  {
    if (tree.VList? || tree.VStr?)
       && !Contains(tree, "name") && !Contains(tree, "or") && !Contains(tree, "not") && !Contains(tree, "and")
    then UnknownPredicate(tree)
    else NotAMapping(tree)
  }

  /** Predicate.construct: dispatch on the first recognised key, in the order name, or, not, and. */
  function Construct(tree: Value, reg: Registry): (r: Result<Pred, BuildError>)
    ensures r.Ok? ==> Registered(r.value, reg)
    decreases tree, 0
  {
    match tree
    case VDict(es) =>
      if Has(es, "name") then
        LeafCreate(es[Find(es, "name").value].1, Get(es, "args"), reg)
      else if Has(es, "or") then
        NaryCreate(es[Find(es, "or").value].1, OrOp, reg)
      else if Has(es, "not") then
        UnaryCreate(es[Find(es, "not").value].1, reg)
      else if Has(es, "and") then
        NaryCreate(es[Find(es, "and").value].1, AndOp, reg)
      else
        Err(UnknownPredicate(tree))
    case _ => Err(NonMappingError(tree))
  }

  /**
   * LeafPredicate.create: resolve the name through the registry, then keep the
   * arguments (absent or None become the empty mapping).
   */
  function LeafCreate(name: Value, args: Option<Value>, reg: Registry): (r: Result<Pred, BuildError>)
    ensures r.Ok? <==> name.VStr? && name.s in reg && (args.None? || args.value.VNone? || args.value.VDict?)
    ensures r.Ok? ==> r.value.Leaf? && r.value.name == name.s && r.value.fn == reg[name.s]
    ensures r.Ok? ==> r.value.args == if args.Some? && args.value.VDict? then args.value.entries else []
    ensures !(name.VStr? && name.s in reg) ==> r == Err(LookupFailure(name))
  {
    if !name.VStr? || name.s !in reg then Err(LookupFailure(name))
    else
      match args
      case None => Ok(Leaf(name.s, reg[name.s], []))
      case Some(VNone) => Ok(Leaf(name.s, reg[name.s], []))
      case Some(VDict(entries)) => Ok(Leaf(name.s, reg[name.s], entries))
      case Some(other) => Err(ArgsNotMapping(other))
  }

  /** NaryPredicate._create followed by the And/Or constructor: the operand must be a list. */
  function NaryCreate(operand: Value, op: NaryOp, reg: Registry): (r: Result<Pred, BuildError>)
    ensures r.Ok? ==> Registered(r.value, reg)
    ensures !operand.VList? ==> r == Err(NaryExpectsList(operand))
    ensures operand.VList? ==> (r.Ok? <==> ConstructAll(operand.items, reg).Ok?)
    ensures r.Ok? ==> r.value == (if op == AndOp then And(ConstructAll(operand.items, reg).value)
                                  else Or(ConstructAll(operand.items, reg).value))
    decreases operand, 2
  {
    if !operand.VList? then Err(NaryExpectsList(operand))
    else
      match ConstructAll(operand.items, reg)
      case Err(e) => Err(e)
      case Ok(cs) => Ok(if op == AndOp then And(cs) else Or(cs))
  }

  /** UnaryPredicate._create followed by the Not constructor: the operand must not be a list. */
  function UnaryCreate(operand: Value, reg: Registry): (r: Result<Pred, BuildError>)
    ensures r.Ok? ==> Registered(r.value, reg)
    ensures operand.VList? ==> r == Err(UnaryExpectsOneChild(operand))
    ensures !operand.VList? ==> (r.Ok? <==> Construct(operand, reg).Ok?)
    ensures r.Ok? ==> r.value == Not(Construct(operand, reg).value)
    decreases operand, 1
  {
    if operand.VList? then Err(UnaryExpectsOneChild(operand))
    else
      match Construct(operand, reg)
      case Err(e) => Err(e)
      case Ok(c) => Ok(Not(c))
  }

  /**
   * The children of an n-ary operator, built one after the other; the first
   * description that fails stops the construction with its error.
   */
  function ConstructAll(items: seq<Value>, reg: Registry): (r: Result<seq<Pred>, BuildError>)
    ensures r.Ok? ==> |r.value| == |items|
    ensures r.Ok? ==> forall i :: 0 <= i < |items| ==> Registered(r.value[i], reg)
    decreases items, 1
  {
    if items == [] then Ok([])
    else
      match Construct(items[0], reg)
      case Err(e) => Err(e)
      case Ok(p) =>
        match ConstructAll(items[1..], reg)
        case Err(e) => Err(e)
        case Ok(ps) => Ok([p] + ps)
  }

  /** Prepend already-built children to the outcome of building the rest. */
  function Extend(done: seq<Pred>, rest: Result<seq<Pred>, BuildError>): Result<seq<Pred>, BuildError> {
    match rest
    case Ok(ps) => Ok(done + ps)
    case Err(e) => Err(e)
  }

  /** One step of ConstructAll: build the first child, then the rest. */
  lemma ConstructAllStep(items: seq<Value>, reg: Registry)
    requires items != []
    ensures Construct(items[0], reg).Err? ==> ConstructAll(items, reg) == Err(Construct(items[0], reg).error)
    ensures Construct(items[0], reg).Ok? ==>
              ConstructAll(items, reg) == Extend([Construct(items[0], reg).value], ConstructAll(items[1..], reg))
  {
  }

  lemma ExtendTwice(a: seq<Pred>, b: seq<Pred>, rest: Result<seq<Pred>, BuildError>)
    ensures Extend(a, Extend(b, rest)) == Extend(a + b, rest)
  {
    if rest.Ok? {
      assert a + (b + rest.value) == (a + b) + rest.value;
    }
  }

  /** The loop of NaryPredicate._create: append each constructed child in turn. */
  method BuildChildren(items: seq<Value>, reg: Registry) returns (r: Result<seq<Pred>, BuildError>)
    ensures r == ConstructAll(items, reg)
  {
    var children: seq<Pred> := [];
    var i := 0;
    assert items[i..] == items;
    match ConstructAll(items, reg) {
      case Ok(ps) => assert children + ps == ps;
      case Err(_) =>
    }
    while i < |items|
      invariant 0 <= i <= |items|
      invariant ConstructAll(items, reg) == Extend(children, ConstructAll(items[i..], reg))
    {
      ConstructAllStep(items[i..], reg);
      assert items[i..][0] == items[i];
      assert items[i..][1..] == items[i + 1..];
      var child := Construct(items[i], reg);
      if child.Err? {
        return Err(child.error);
      }
      ExtendTwice(children, [child.value], ConstructAll(items[i + 1..], reg));
      children := children + [child.value];
      i := i + 1;
    }
    assert items[i..] == [];
    assert children + [] == children;
    return Ok(children);
  }

  /** Building child k failed and every child before it was built. */
  ghost predicate FirstFailure(items: seq<Value>, k: nat, reg: Registry)
    requires k < |items|
  {
    Construct(items[k], reg).Err? && forall j :: 0 <= j < k ==> Construct(items[j], reg).Ok?
  }

  /**
   * Children are built in list order: the list succeeds iff every element does,
   * child i is then the tree built from element i, and a failure is the error of
   * the first element that fails.
   */
  lemma {:induction false} ChildrenInOrder(items: seq<Value>, reg: Registry)
    ensures ConstructAll(items, reg).Ok? <==> forall i :: 0 <= i < |items| ==> Construct(items[i], reg).Ok?
    ensures ConstructAll(items, reg).Ok? ==>
              forall i :: 0 <= i < |items| ==> Construct(items[i], reg) == Ok(ConstructAll(items, reg).value[i])
    ensures ConstructAll(items, reg).Err? ==>
              exists k :: 0 <= k < |items| && FirstFailure(items, k, reg)
                          && ConstructAll(items, reg).error == Construct(items[k], reg).error
    decreases items
  {
    if items != [] {
      ChildrenInOrder(items[1..], reg);
      var rest := items[1..];
      assert forall i :: 1 <= i < |items| ==> items[i] == rest[i - 1];
      if Construct(items[0], reg).Err? {
        assert FirstFailure(items, 0, reg);
      } else if ConstructAll(rest, reg).Err? {
        var k :| 0 <= k < |rest| && FirstFailure(rest, k, reg)
                 && ConstructAll(rest, reg).error == Construct(rest[k], reg).error;
        assert FirstFailure(items, k + 1, reg);
      }
    }
  }

  /** The key under which a description holds the operand of an n-ary operator. */
  function OpKey(op: NaryOp): string {
    if op == AndOp then "and" else "or"
  }

  /**
   * A description whose deciding key is `and`/`or` over a list of k descriptions
   * builds the matching operator with exactly k children, child i built from
   * element i; it fails exactly when some element fails, with the error of the
   * first one that does.
   */
  lemma {:induction false} NaryChildren(es: Dict, op: NaryOp, reg: Registry)
    requires !Has(es, "name")
    requires op == OrOp ==> Has(es, "or")
    requires op == AndOp ==> !Has(es, "or") && !Has(es, "not") && Has(es, "and")
    requires Get(es, OpKey(op)).value.VList?
    ensures var items := Get(es, OpKey(op)).value.items;
            var r := Construct(VDict(es), reg);
            && (r.Ok? <==> forall i :: 0 <= i < |items| ==> Construct(items[i], reg).Ok?)
            && (r.Ok? ==> (if op == AndOp then r.value.And? else r.value.Or?)
                          && |r.value.children| == |items|
                          && forall i :: 0 <= i < |items| ==> Construct(items[i], reg) == Ok(r.value.children[i]))
            && (r.Err? ==> exists k :: 0 <= k < |items| && FirstFailure(items, k, reg)
                                       && r.error == Construct(items[k], reg).error)
  {
    ChildrenInOrder(Get(es, OpKey(op)).value.items, reg);
  }

  /**
   * The shape of a description that construction accepts: at every level the first
   * recognised key decides, a leaf name resolves and its args are absent, None or a
   * mapping, `and`/`or` hold a list of acceptable descriptions and `not` holds one
   * acceptable description that is not a list.
   */
  ghost predicate WellFormed(tree: Value, reg: Registry)
    decreases tree
  {
    match tree
    case VDict(es) =>
      if Has(es, "name") then
        var name := Get(es, "name").value;
        var args := Get(es, "args");
        name.VStr? && name.s in reg && (args.None? || args.value.VNone? || args.value.VDict?)
      else if Has(es, "or") then
        var sub := es[Find(es, "or").value].1;
        sub.VList? && forall i :: 0 <= i < |sub.items| ==> WellFormed(sub.items[i], reg)
      else if Has(es, "not") then
        var sub := es[Find(es, "not").value].1;
        !sub.VList? && WellFormed(sub, reg)
      else if Has(es, "and") then
        var sub := es[Find(es, "and").value].1;
        sub.VList? && forall i :: 0 <= i < |sub.items| ==> WellFormed(sub.items[i], reg)
      else false
    case _ => false
  }

  /** Construction succeeds exactly on well-formed descriptions. */
  lemma {:induction false} ConstructOkIff(tree: Value, reg: Registry)
    ensures Construct(tree, reg).Ok? <==> WellFormed(tree, reg)
    decreases tree
  {
    match tree
    case VDict(es) =>
      if Has(es, "name") {
      } else if Has(es, "or") {
        ListOkIff(es[Find(es, "or").value].1, reg);
      } else if Has(es, "not") {
        var sub := es[Find(es, "not").value].1;
        if !sub.VList? {
          ConstructOkIff(sub, reg);
        }
      } else if Has(es, "and") {
        ListOkIff(es[Find(es, "and").value].1, reg);
      }
    case _ =>
  }

  /** The operand of `and`/`or` builds exactly when it is a list of well-formed descriptions. */
  lemma {:induction false} ListOkIff(sub: Value, reg: Registry)
    ensures sub.VList? ==>
              (ConstructAll(sub.items, reg).Ok? <==> forall i :: 0 <= i < |sub.items| ==> WellFormed(sub.items[i], reg))
    decreases sub
  {
    if sub.VList? {
      ChildrenInOrder(sub.items, reg);
      forall i | 0 <= i < |sub.items|
        ensures Construct(sub.items[i], reg).Ok? <==> WellFormed(sub.items[i], reg)
      {
        ConstructOkIff(sub.items[i], reg);
      }
    }
  }

  /**
   * A description with a `name` key always builds a leaf (or fails to resolve it),
   * whatever other keys it has; the leaf's name is the `name` value and its
   * arguments are the `args` mapping, empty when absent or None.
   */
  lemma NameBuildsLeaf(es: Dict, reg: Registry)
    requires Has(es, "name")
    ensures var r := Construct(VDict(es), reg);
            && (r.Ok? ==> r.value.Leaf? && Get(es, "name") == Some(VStr(r.value.name)))
            && (r.Ok? ==> r.value.args == match Get(es, "args") case Some(VDict(d)) => d case _ => [])
            && (r.Err? ==> r.error.LookupFailure? || r.error.ArgsNotMapping?)
  {
  }

  /**
   * Without `name`, `or` is tested before `not` and `not` before `and`; an operator
   * given the wrong shape of operand is rejected, and a mapping with none of the
   * four keys (the empty mapping included) is an unknown predicate.
   */
  lemma DispatchPrecedence(es: Dict, reg: Registry)
    requires !Has(es, "name")
    ensures var r := Construct(VDict(es), reg);
            && (Has(es, "or") ==> r == NaryCreate(Get(es, "or").value, OrOp, reg))
            && (!Has(es, "or") && Has(es, "not") ==> r == UnaryCreate(Get(es, "not").value, reg))
            && (!Has(es, "or") && !Has(es, "not") && Has(es, "and") ==> r == NaryCreate(Get(es, "and").value, AndOp, reg))
            && (Has(es, "or") && r.Ok? ==> r.value.Or?)
            && (Has(es, "or") && !Get(es, "or").value.VList? ==> r == Err(NaryExpectsList(Get(es, "or").value)))
            && (!Has(es, "or") && Has(es, "not") && r.Ok? ==> r.value.Not?)
            && (!Has(es, "or") && Has(es, "not") && Get(es, "not").value.VList? ==>
                  r == Err(UnaryExpectsOneChild(Get(es, "not").value)))
            && (!Has(es, "or") && !Has(es, "not") && Has(es, "and") && r.Ok? ==> r.value.And?)
            && (!Has(es, "or") && !Has(es, "not") && Has(es, "and") && !Get(es, "and").value.VList? ==>
                  r == Err(NaryExpectsList(Get(es, "and").value)))
            && (!Has(es, "or") && !Has(es, "not") && !Has(es, "and") ==> r == Err(UnknownPredicate(VDict(es))))
  {
  }

  /**
   * predicates_used: the leaf names in left-to-right order, duplicates kept, so
   * there is one entry per leaf, counted with multiplicity.
   */
  function PredicatesUsed(p: Pred): (r: seq<string>)
    ensures |r| == LeafCount(p)
    decreases p, 1
  {
    match p
    case Leaf(name, _, _) => [name]
    case And(cs) => UsedAll(cs)
    case Or(cs) => UsedAll(cs)
    case Not(c) => PredicatesUsed(c)
  }

  /** The children's lists concatenated in child order. */
  function UsedAll(cs: seq<Pred>): (r: seq<string>)
    ensures |r| == Sum(seq(|cs|, i requires 0 <= i < |cs| => LeafCount(cs[i])))
    decreases cs, 0
  {
    if cs == [] then []
    else
      var counts := seq(|cs|, i requires 0 <= i < |cs| => LeafCount(cs[i]));
      assert counts[1..] == seq(|cs[1..]|, i requires 0 <= i < |cs[1..]| => LeafCount(cs[1..][i]));
      PredicatesUsed(cs[0]) + UsedAll(cs[1..])
  }

  /** The number of leaves of a tree. */
  function LeafCount(p: Pred): nat
    decreases p
  {
    match p
    case Leaf(_, _, _) => 1
    case And(cs) => Sum(seq(|cs|, i requires 0 <= i < |cs| => LeafCount(cs[i])))
    case Or(cs) => Sum(seq(|cs|, i requires 0 <= i < |cs| => LeafCount(cs[i])))
    case Not(c) => LeafCount(c)
  }

  function Sum(ns: seq<nat>): nat {
    if ns == [] then 0 else ns[0] + Sum(ns[1..])
  }

  /** Every name that predicates_used reports was resolved by the registry at construction. */
  lemma {:induction false} UsedAreRegistered(p: Pred, reg: Registry)
    requires Registered(p, reg)
    ensures forall i :: 0 <= i < |PredicatesUsed(p)| ==> PredicatesUsed(p)[i] in reg
    decreases p, 1
  {
    match p
    case Leaf(_, _, _) =>
    case And(cs) => UsedAllRegistered(cs, reg);
    case Or(cs) => UsedAllRegistered(cs, reg);
    case Not(c) => UsedAreRegistered(c, reg);
  }

  lemma {:induction false} UsedAllRegistered(cs: seq<Pred>, reg: Registry)
    requires forall i :: 0 <= i < |cs| ==> Registered(cs[i], reg)
    ensures forall i :: 0 <= i < |UsedAll(cs)| ==> UsedAll(cs)[i] in reg
    decreases cs, 0
  {
    if cs != [] {
      UsedAreRegistered(cs[0], reg);
      UsedAllRegistered(cs[1..], reg);
    }
  }
}
