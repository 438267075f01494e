/**
 * A small target-language expression tree, the shape of the code that predicate
 * synthesis produces, and an interpreter for it with the target's semantics:
 * `and`/`or` short-circuit and return one of their operands (not necessarily a
 * bool), `not` tests truthiness, `==` compares values, and a call looks its
 * callee up by name among the functions the generated program imports.
 */
module PyAst {
  import opened Wrappers
  import opened Values

  datatype BoolOperator = PyAnd | PyOr

  /** A keyword argument whose value is a literal. */
  datatype Keyword = Keyword(arg: string, value: Value)

  datatype Expr =
    | BoolOp(op: BoolOperator, values: seq<Expr>)
    | UnaryNot(operand: Expr)
    | Call(func: Expr, args: seq<Expr>, keywords: seq<Keyword>)
    | Name(id: string)
    | Const(value: Value)
    | Compare(left: Expr, right: Expr)   // `left == right`

  /** `if test: body else: orelse`, over statements of any kind `S`. */
  datatype IfStmt<S> = If(test: Expr, body: seq<S>, orelse: seq<S>)

  /**
   * The result of running an expression: its value, or None when it raised or
   * could not be compiled, and the names of the functions it called, in order.
   */
  datatype PyOutcome = PyOutcome(value: Option<Value>, calls: seq<string>)

  function AfterCalls(earlier: seq<string>, o: PyOutcome): PyOutcome {
    PyOutcome(o.value, earlier + o.calls)
  }

  /** The keyword arguments as the mapping the callee receives. */
  function KeywordDict(kws: seq<Keyword>): (d: Dict)
    ensures |d| == |kws|
    ensures forall i :: 0 <= i < |kws| ==> d[i] == (kws[i].arg, kws[i].value)
  {
    seq(|kws|, i requires 0 <= i < |kws| => (kws[i].arg, kws[i].value))
  }

  /**
   * Runs `e` in a program whose imported functions are `funcs` and whose local
   * variables are `env`. A `BoolOp` with one operand is that operand, as Python 2.7
   * compiles it; one with no operand is taken to fail; an unbound name raises.
   */
  function ExprEval(e: Expr, funcs: map<string, LeafFn>, env: map<string, Value>): PyOutcome
    decreases e, 1
  {
    match e
    case Name(id) => PyOutcome(if id in env then Some(env[id]) else None, [])
    case Const(v) => PyOutcome(Some(v), [])
    case UnaryNot(x) =>
      var o := ExprEval(x, funcs, env);
      PyOutcome(if o.value.Some? then Some(VBool(!Truthy(o.value.value))) else None, o.calls)
    case BoolOp(op, vs) =>
      if |vs| == 0 then PyOutcome(None, []) else Operands(op, vs, funcs, env)
    case Compare(l, r) =>
      var a := ExprEval(l, funcs, env);
      if a.value.None? then a
      else
        var b := ExprEval(r, funcs, env);
        PyOutcome(if b.value.Some? then Some(VBool(a.value.value == b.value.value)) else None,
                  a.calls + b.calls)
    case Call(f, args, kws) =>
      if !f.Name? || f.id !in funcs || |args| != 1 then PyOutcome(None, [])
      else
        var a := ExprEval(args[0], funcs, env);
        if a.value.None? then a
        else
          match funcs[f.id](a.value.value, KeywordDict(kws))
          case Returned(v) => PyOutcome(Some(v), a.calls + [f.id])
          case Raised => PyOutcome(None, a.calls + [f.id])
  }

  /**
   * The operands of `and`/`or`, left to right: `and` stops at the first falsy
   * value and `or` at the first truthy one, returning it; otherwise the last
   * operand's value is the result.
   */
  function Operands(op: BoolOperator, vs: seq<Expr>, funcs: map<string, LeafFn>, env: map<string, Value>): PyOutcome
    requires |vs| >= 1
    decreases vs, 0
  {
    var first := ExprEval(vs[0], funcs, env);
    if first.value.None? || |vs| == 1 then first
    else if (op == PyAnd) != Truthy(first.value.value) then first
    else AfterCalls(first.calls, Operands(op, vs[1..], funcs, env))
  }

  /** A comparison `name == literal` is True exactly when the variable is bound to that value. */
  lemma CompareNameConst(id: string, v: Value, funcs: map<string, LeafFn>, env: map<string, Value>)
    requires id in env
    ensures ExprEval(Compare(Name(id), Const(v)), funcs, env) == PyOutcome(Some(VBool(env[id] == v)), [])
  {
  }
}
