/**
 * Code synthesis: a predicate tree becomes a target-language expression that,
 * run in a program where `message` holds the message and every leaf name is
 * bound to its function, computes the same verdict as evaluating the tree.
 */
module Synthesize {
  import opened Wrappers
  import opened Values
  import opened Predicate
  import opened Evaluate
  import opened PyAst

  /**
   * The expression synthesised for `p`: a leaf is the call `name(message, k=v, ...)`
   * with one keyword per argument entry, And/Or are a `BoolOp` with one operand
   * per child in child order, Not is a `not` over its child's expression.
   */
  function Ast(p: Pred): (e: Expr)
    ensures p.Leaf? ==> e.Call? && e.func == Name(p.name) && e.args == [Name("message")]
                        && KeywordDict(e.keywords) == p.args
    ensures (p.And? || p.Or?) ==> e.BoolOp? && (e.op == PyAnd <==> p.And?) && |e.values| == |p.children|
    ensures (p.And? || p.Or?) ==> forall i :: 0 <= i < |p.children| ==> e.values[i] == Ast(p.children[i])
    ensures p.Not? ==> e == UnaryNot(Ast(p.child))
    decreases p
  {
    match p
    case Leaf(name, _, args) =>
      Call(Name(name), [Name("message")], seq(|args|, i requires 0 <= i < |args| => Keyword(args[i].0, args[i].1)))
    case And(cs) => BoolOp(PyAnd, seq(|cs|, i requires 0 <= i < |cs| => Ast(cs[i])))
    case Or(cs) => BoolOp(PyOr, seq(|cs|, i requires 0 <= i < |cs| => Ast(cs[i])))
    case Not(c) => UnaryNot(Ast(c))
  }

  /**
   * A verdict and a run of the synthesised code agree: same calls, and the same
   * boolean, or both raising when a leaf raised. A leaf that returned a non-bool
   * is not constrained (the synthesised code does not check leaf results).
   */
  predicate Agrees(v: Verdict, o: PyOutcome) {
    match v.result
    case Ok(b) => o == PyOutcome(Some(VBool(b)), v.calls)
    case Err(LeafRaised(_)) => o == PyOutcome(None, v.calls)
    case Err(NotBoolean(_, _)) => true
  }

  /** The environment of the generated code: `message` holds the message. */
  predicate Binds(env: map<string, Value>, msg: Value) {
    "message" in env && env["message"] == msg
  }

  /** Every And and Or in the tree has at least one child, so its `BoolOp` has an operand. */
  predicate Synthesizable(p: Pred)
    decreases p
  {
    match p
    case Leaf(_, _, _) => true
    case And(cs) => |cs| >= 1 && forall i :: 0 <= i < |cs| ==> Synthesizable(cs[i])
    case Or(cs) => |cs| >= 1 && forall i :: 0 <= i < |cs| ==> Synthesizable(cs[i])
    case Not(c) => Synthesizable(c)
  }

  /**
   * Running the synthesised expression gives the verdict of `evaluate`, with the
   * same leaf functions called in the same order, for every tree without an empty
   * And or Or whose leaves are bound in the generated program to their registered
   * functions.
   */
  lemma {:induction false} SynthesisAgrees(p: Pred, reg: Registry, env: map<string, Value>, msg: Value)
    requires Synthesizable(p) && Registered(p, reg) && Binds(env, msg)
    ensures Agrees(Eval(p, msg), ExprEval(Ast(p), reg, env))
    decreases p, 1
  {
    match p
    case Leaf(name, fn, args) =>
      var e := Ast(p);
      assert ExprEval(e.args[0], reg, env) == PyOutcome(Some(msg), []);
      assert [] + [name] == [name];
    case Not(c) =>
      SynthesisAgrees(c, reg, env, msg);
    case And(cs) =>
      SynthesisAgreesAll(cs, PyAnd, reg, env, msg);
    case Or(cs) =>
      SynthesisAgreesAll(cs, PyOr, reg, env, msg);
  }

  /** The operand loop of `and`/`or` agrees with And/Or evaluation over the same children. */
  lemma {:induction false} SynthesisAgreesAll(cs: seq<Pred>, op: BoolOperator, reg: Registry, env: map<string, Value>, msg: Value)
    requires |cs| >= 1 && Binds(env, msg)
    requires forall i :: 0 <= i < |cs| ==> Synthesizable(cs[i]) && Registered(cs[i], reg)
    ensures Agrees(if op == PyAnd then EvalAnd(cs, msg) else EvalOr(cs, msg),
                   Operands(op, seq(|cs|, i requires 0 <= i < |cs| => Ast(cs[i])), reg, env))
    decreases cs, 0
  {
    var vs := seq(|cs|, i requires 0 <= i < |cs| => Ast(cs[i]));
    var first := Eval(cs[0], msg);
    SynthesisAgrees(cs[0], reg, env, msg);
    if |cs| > 1 && first.result == Ok(op == PyAnd) {
      var rest := seq(|cs| - 1, i requires 0 <= i < |cs| - 1 => Ast(cs[1..][i]));
      assert vs[1..] == rest;
      SynthesisAgreesAll(cs[1..], op, reg, env, msg);
    } else if |cs| == 1 && first.result == Ok(op == PyAnd) {
      assert cs[1..] == [];
      assert first.calls + [] == first.calls;
    }
  }

  /**
   * The synthesised code skips the leaf result check: a leaf returning 1 under a
   * `not` makes `evaluate` fail, while the generated code yields False.
   */
  lemma NonBooleanLeafDiverges(name: string, fn: LeafFn, env: map<string, Value>, msg: Value)
    requires Binds(env, msg) && forall m, a :: fn(m, a) == Returned(VInt(1))
    ensures Eval(Not(Leaf(name, fn, [])), msg).result == Err(NotBoolean(name, VInt(1)))
    ensures ExprEval(Ast(Not(Leaf(name, fn, []))), map[name := fn], env).value == Some(VBool(false))
  {
    var e := Ast(Leaf(name, fn, []));
    assert ExprEval(e.args[0], map[name := fn], env) == PyOutcome(Some(msg), []);
  }

  /**
   * An And with no children evaluates to True, while its synthesised `BoolOp` has
   * no operand and is taken to fail.
   */
  lemma EmptyAndDiverges(funcs: map<string, LeafFn>, env: map<string, Value>, msg: Value)
    ensures Eval(And([]), msg) == Verdict(Ok(true), [])
    ensures ExprEval(Ast(And([])), funcs, env).value.None?
  {
  }
}
