/**
 * The canonical string form of a predicate tree: a leaf renders as
 * `name(k1=v1, k2=v2)`, And/Or as their children joined by ` and `/` or ` inside
 * parentheses, Not as `(not child)`.
 */
module Render {
  import opened Values
  import opened Predicate
  import Text

  /** One argument entry: strings are quoted, lists and other values use str(). */
  function EntryString(k: string, v: Value): string {
    if v.VList? then k + "=" + PyStr(v)
    else if v.VStr? then k + "='" + v.s + "'"
    else k + "=" + PyStr(v)
  }

  /** The rendered entries, in argument order. */
  function EntryStrings(args: Dict): (r: seq<string>)
    ensures |r| == |args|
    ensures forall i :: 0 <= i < |args| ==> r[i] == EntryString(args[i].0, args[i].1)
  {
    seq(|args|, i requires 0 <= i < |args| => EntryString(args[i].0, args[i].1))
  }

  /** _args2str: the entries joined with ", "; no arguments give the empty string. */
  function ArgsString(args: Dict): string {
    Text.Join(EntryStrings(args), ", ")
  }

  /** Rendering one more argument appends its entry, after a ", " when entries came before. */
  lemma ArgsStringSnoc(args: Dict, i: nat)
    requires i < |args|
    ensures ArgsString(args[..i + 1]) ==
      (if i == 0 then "" else ArgsString(args[..i]) + ", ") + EntryString(args[i].0, args[i].1)
  {
    var entry := EntryString(args[i].0, args[i].1);
    assert EntryStrings(args[..i + 1]) == EntryStrings(args[..i]) + [entry];
    if i == 0 {
      assert EntryStrings(args[..i + 1]) == [entry];
    } else {
      Text.JoinSnoc(EntryStrings(args[..i]), entry, ", ");
    }
  }

  /** _args2str as the source runs it: accumulate, inserting ", " once something is there. */
  method ArgsToStr(args: Dict) returns (ret: string)
    ensures ret == ArgsString(args)
    ensures args == [] <==> ret == ""
  {
    ret := "";
    var i := 0;
    while i < |args|
      invariant 0 <= i <= |args|
      invariant ret == ArgsString(args[..i])
      invariant ret == "" <==> i == 0
    {
      ArgsStringSnoc(args, i);
      if |ret| > 0 {
        ret := ret + ", ";
      }
      ret := ret + EntryString(args[i].0, args[i].1);
      i := i + 1;
    }
    assert args[..i] == args;
  }

  /** Every And and Or in the tree has at least two children, so that its string form exists. */
  predicate ReadyToRender(p: Pred)
    decreases p
  {
    match p
    case Leaf(_, _, _) => true
    case And(cs) => |cs| >= 2 && forall i :: 0 <= i < |cs| ==> ReadyToRender(cs[i])
    case Or(cs) => |cs| >= 2 && forall i :: 0 <= i < |cs| ==> ReadyToRender(cs[i])
    case Not(c) => ReadyToRender(c)
  }

  /** `reduce(lambda x, y: x + sep + y, xs)`: a fold from the left. */
  function Reduce(xs: seq<string>, sep: string): string
    requires |xs| >= 1
    decreases |xs|
  {
    if |xs| == 1 then xs[0] else Reduce(xs[..|xs| - 1], sep) + sep + xs[|xs| - 1]
  }

  /** The left fold of reduce is the separator join. */
  lemma {:induction false} ReduceIsJoin(xs: seq<string>, sep: string)
    requires |xs| >= 1
    ensures Reduce(xs, sep) == Text.Join(xs, sep)
    decreases |xs|
  {
    if |xs| > 1 {
      var init := xs[..|xs| - 1];
      ReduceIsJoin(init, sep);
      assert xs == init + [xs[|xs| - 1]];
      Text.JoinSnoc(init, xs[|xs| - 1], sep);
    }
  }

  /** __str__ of every predicate class. */
  function ToString(p: Pred): (r: string)
    requires ReadyToRender(p)
    ensures |r| >= 2 && r[|r| - 1] == ')'
    ensures !p.Leaf? ==> r[0] == '('
    ensures p.Leaf? ==> |r| > |p.name| && r[..|p.name| + 1] == p.name + "("
    decreases p, 1
  {
    match p
    case Leaf(name, _, args) => name + "(" + ArgsString(args) + ")"
    case And(cs) => "(" + Reduce(StrAll(cs), " and ") + ")"
    case Or(cs) => "(" + Reduce(StrAll(cs), " or ") + ")"
    case Not(c) => "(not " + ToString(c) + ")"
  }

  /** The string forms of the children, in child order. */
  function StrAll(cs: seq<Pred>): (r: seq<string>)
    requires forall i :: 0 <= i < |cs| ==> ReadyToRender(cs[i])
    ensures |r| == |cs|
    ensures forall i :: 0 <= i < |cs| ==> r[i] == ToString(cs[i])
    decreases cs, 0
  {
    if cs == [] then [] else [ToString(cs[0])] + StrAll(cs[1..])
  }

  /**
   * The string form of an n-ary node is its children's string forms, in order,
   * separated by the operator and wrapped in one pair of parentheses; Not wraps its
   * child's form as `(not c)`; a leaf is its name followed by its argument string in
   * parentheses, so a leaf without arguments renders as `name()`.
   */
  lemma StringShape(p: Pred)
    requires ReadyToRender(p)
    ensures p.And? ==> ToString(p) == "(" + Text.Join(StrAll(p.children), " and ") + ")"
    ensures p.Or? ==> ToString(p) == "(" + Text.Join(StrAll(p.children), " or ") + ")"
    ensures p.Not? ==> ToString(p) == "(not " + ToString(p.child) + ")"
    ensures p.Leaf? ==> ToString(p) == p.name + "(" + ArgsString(p.args) + ")"
    ensures p.Leaf? && p.args == [] ==> ToString(p) == p.name + "()"
  {
    if p.And? {
      ReduceIsJoin(StrAll(p.children), " and ");
    } else if p.Or? {
      ReduceIsJoin(StrAll(p.children), " or ");
    }
  }
}
