/**
 * Evaluating a predicate tree against a message. And and Or short-circuit, Not
 * negates, and a leaf calls its function, which must return a bool. Besides the
 * verdict, an evaluation reports the names of the leaves it called, in call order,
 * so that short-circuiting can be stated.
 */
module Evaluate {
  import opened Wrappers
  import opened Values
  import opened Predicate
  import FieldEqual

  /** Why an evaluation failed. */
  datatype EvalError =
    | LeafRaised(name: string)                  // the leaf function raised; the exception propagates
    | NotBoolean(name: string, returned: Value) // RuntimeError "Predicate should always return True/False"

  /** The verdict of an evaluation and the leaves it called, in order. */
  datatype Verdict = Verdict(result: Result<bool, EvalError>, calls: seq<string>)

  /** An outcome preceded by calls made earlier. */
  function After(earlier: seq<string>, o: Verdict): Verdict {
    Verdict(o.result, earlier + o.calls)
  }

  /** What LeafPredicate.evaluate makes of the value its function returned. */
  function LeafResult(name: string, ret: Return): (r: Result<bool, EvalError>)
    ensures r.Ok? <==> ret.Returned? && ret.value.VBool?
    ensures r.Ok? ==> r.value == ret.value.b
    ensures ret.Raised? ==> r == Err(LeafRaised(name))
    ensures ret.Returned? && !ret.value.VBool? ==> r == Err(NotBoolean(name, ret.value))
  {
    match ret
    case Raised => Err(LeafRaised(name))
    case Returned(v) => if v.VBool? then Ok(v.b) else Err(NotBoolean(name, v))
  }

  /** The evaluation of `p` on `msg`, as a function of the tree. */
  function Eval(p: Pred, msg: Value): (r: Verdict)
    ensures r.result.Err? ==> r.result.error.name in r.calls
    decreases p, 1
  {
    match p
    case Leaf(name, fn, args) => Verdict(LeafResult(name, fn(msg, args)), [name])
    case Not(c) =>
      var o := Eval(c, msg);
      Verdict(if o.result.Ok? then Ok(!o.result.value) else o.result, o.calls)
    case And(cs) => EvalAnd(cs, msg)
    case Or(cs) => EvalOr(cs, msg)
  }

  /** Children of an And, left to right, stopping at the first that is not true. */
  function EvalAnd(cs: seq<Pred>, msg: Value): (r: Verdict)
    ensures r.result.Err? ==> r.result.error.name in r.calls
    decreases cs, 0
  {
    if cs == [] then Verdict(Ok(true), [])
    else
      var first := Eval(cs[0], msg);
      if first.result != Ok(true) then first else After(first.calls, EvalAnd(cs[1..], msg))
  }

  /** Children of an Or, left to right, stopping at the first that is not false. */
  function EvalOr(cs: seq<Pred>, msg: Value): (r: Verdict)
    ensures r.result.Err? ==> r.result.error.name in r.calls
    decreases cs, 0
  {
    if cs == [] then Verdict(Ok(false), [])
    else
      var first := Eval(cs[0], msg);
      if first.result != Ok(false) then first else After(first.calls, EvalOr(cs[1..], msg))
  }

  /** The calls of evaluating every one of `cs`, concatenated in order. */
  function CallsOf(cs: seq<Pred>, msg: Value): seq<string>
    decreases cs
  {
    if cs == [] then [] else Eval(cs[0], msg).calls + CallsOf(cs[1..], msg)
  }

  /**
   * evaluate, as the source runs it: a leaf calls its function and checks the
   * result, Not negates its child, and And/Or loop over their children.
   */
  method Evaluate(p: Pred, msg: Value) returns (o: Verdict)
    ensures o == Eval(p, msg)
    decreases p, 1
  {
    match p {
      case Leaf(name, fn, args) =>
        var ret := fn(msg, args);
        o := Verdict(LeafResult(name, ret), [name]);
      case Not(c) =>
        var inner := Evaluate(c, msg);
        o := Verdict(if inner.result.Ok? then Ok(!inner.result.value) else inner.result, inner.calls);
      case And(cs) =>
        o := EvaluateAnd(cs, msg);
      case Or(cs) =>
        o := EvaluateOr(cs, msg);
    }
  }

  /** A failed evaluation ends with the call of the leaf whose failure it reports. */
  lemma {:induction false} FailureIsLastCall(p: Pred, msg: Value)
    ensures var r := Eval(p, msg);
            r.result.Err? ==> r.calls != [] && r.calls[|r.calls| - 1] == r.result.error.name
    decreases p, 1
  {
    match p
    case Leaf(_, _, _) =>
    case Not(c) => FailureIsLastCall(c, msg);
    case And(cs) => FailureIsLastCallAll(cs, msg);
    case Or(cs) => FailureIsLastCallAll(cs, msg);
  }

  lemma {:induction false} FailureIsLastCallAll(cs: seq<Pred>, msg: Value)
    ensures var r := EvalAnd(cs, msg);
            r.result.Err? ==> r.calls != [] && r.calls[|r.calls| - 1] == r.result.error.name
    ensures var r := EvalOr(cs, msg);
            r.result.Err? ==> r.calls != [] && r.calls[|r.calls| - 1] == r.result.error.name
    decreases cs, 0
  {
    if cs != [] {
      FailureIsLastCall(cs[0], msg);
      FailureIsLastCallAll(cs[1..], msg);
    }
  }

  /** Evaluating one more child after earlier calls, when it does not decide the verdict. */
  lemma AfterAfter(earlier: seq<string>, first: seq<string>, o: Verdict)
    ensures After(earlier, After(first, o)) == After(earlier + first, o)
  {
    assert earlier + (first + o.calls) == (earlier + first) + o.calls;
  }

  /** AndPredicate.evaluate: the children in order, returning as soon as one is not true. */
  method EvaluateAnd(cs: seq<Pred>, msg: Value) returns (o: Verdict)
    ensures o == EvalAnd(cs, msg)
    decreases cs, 0
  {
    var calls: seq<string> := [];
    var i := 0;
    assert cs[i..] == cs;
    while i < |cs|
      invariant 0 <= i <= |cs|
      invariant EvalAnd(cs, msg) == After(calls, EvalAnd(cs[i..], msg))
    {
      assert cs[i..][0] == cs[i] && cs[i..][1..] == cs[i + 1..];
      var child := Evaluate(cs[i], msg);
      if child.result != Ok(true) {
        return After(calls, child);
      }
      AfterAfter(calls, child.calls, EvalAnd(cs[i + 1..], msg));
      calls := calls + child.calls;
      i := i + 1;
    }
    assert cs[i..] == [];
    assert calls + [] == calls;
    o := Verdict(Ok(true), calls);
  }

  /** OrPredicate.evaluate: the children in order, returning as soon as one is not false. */
  method EvaluateOr(cs: seq<Pred>, msg: Value) returns (o: Verdict)
    ensures o == EvalOr(cs, msg)
    decreases cs, 0
  {
    var calls: seq<string> := [];
    var i := 0;
    assert cs[i..] == cs;
    while i < |cs|
      invariant 0 <= i <= |cs|
      invariant EvalOr(cs, msg) == After(calls, EvalOr(cs[i..], msg))
    {
      assert cs[i..][0] == cs[i] && cs[i..][1..] == cs[i + 1..];
      var child := Evaluate(cs[i], msg);
      if child.result != Ok(false) {
        return After(calls, child);
      }
      AfterAfter(calls, child.calls, EvalOr(cs[i + 1..], msg));
      calls := calls + child.calls;
      i := i + 1;
    }
    assert cs[i..] == [];
    assert calls + [] == calls;
    o := Verdict(Ok(false), calls);
  }

  /** An And whose first child is true goes on with the rest, after that child's calls. */
  lemma AndStep(cs: seq<Pred>, msg: Value)
    requires cs != [] && Eval(cs[0], msg).result == Ok(true)
    ensures Eval(And(cs), msg) == After(Eval(cs[0], msg).calls, Eval(And(cs[1..]), msg))
  {
  }

  /** An Or whose first child is false goes on with the rest, after that child's calls. */
  lemma OrStep(cs: seq<Pred>, msg: Value)
    requires cs != [] && Eval(cs[0], msg).result == Ok(false)
    ensures Eval(Or(cs), msg) == After(Eval(cs[0], msg).calls, Eval(Or(cs[1..]), msg))
  {
  }

  /** The calls of the first k children are the first child's calls, then those of the next k - 1. */
  lemma CallsOfPrefix(cs: seq<Pred>, k: nat, msg: Value)
    requires 0 < k <= |cs|
    ensures CallsOf(cs[..k], msg) == Eval(cs[0], msg).calls + CallsOf(cs[1..][..k - 1], msg)
  {
    assert cs[..k][0] == cs[0] && cs[..k][1..] == cs[1..][..k - 1];
  }

  /**
   * And is true exactly when every child is true; it then has called the leaves
   * of every child, in child order. With no children it is true.
   */
  lemma {:induction false} AndTrueIff(cs: seq<Pred>, msg: Value)
    ensures Eval(And(cs), msg).result == Ok(true) <==> forall i :: 0 <= i < |cs| ==> Eval(cs[i], msg).result == Ok(true)
    ensures Eval(And(cs), msg).result == Ok(true) ==> Eval(And(cs), msg).calls == CallsOf(cs, msg)
    decreases cs
  {
    if cs != [] {
      AndTrueIff(cs[1..], msg);
      assert forall i :: 1 <= i < |cs| ==> cs[i] == cs[1..][i - 1];
    }
  }

  /**
   * And stops at the first child that is not true: if children 0..k-1 are true and
   * child k is false or fails, the And has child k's verdict and has called only the
   * leaves of children 0..k; no later child is evaluated.
   */
  lemma {:induction false} AndStopsAt(cs: seq<Pred>, k: nat, msg: Value)
    requires k < |cs|
    requires forall j :: 0 <= j < k ==> Eval(cs[j], msg).result == Ok(true)
    requires Eval(cs[k], msg).result != Ok(true)
    ensures Eval(And(cs), msg) == Verdict(Eval(cs[k], msg).result, CallsOf(cs[..k], msg) + Eval(cs[k], msg).calls)
    decreases k
  {
    if k > 0 {
      var rest := cs[1..];
      forall j | 0 <= j < k - 1
        ensures Eval(rest[j], msg).result == Ok(true)
      {
        assert rest[j] == cs[j + 1];
      }
      assert rest[k - 1] == cs[k];
      AndStopsAt(rest, k - 1, msg);
      CallsOfPrefix(cs, k, msg);
      AndStep(cs, msg);
      AfterAfter(Eval(cs[0], msg).calls, CallsOf(rest[..k - 1], msg), Eval(cs[k], msg));
    }
  }

  /**
   * Or is false exactly when every child is false; it then has called the leaves
   * of every child, in child order. With no children it is false.
   */
  lemma {:induction false} OrFalseIff(cs: seq<Pred>, msg: Value)
    ensures Eval(Or(cs), msg).result == Ok(false) <==> forall i :: 0 <= i < |cs| ==> Eval(cs[i], msg).result == Ok(false)
    ensures Eval(Or(cs), msg).result == Ok(false) ==> Eval(Or(cs), msg).calls == CallsOf(cs, msg)
    decreases cs
  {
    if cs != [] {
      OrFalseIff(cs[1..], msg);
      assert forall i :: 1 <= i < |cs| ==> cs[i] == cs[1..][i - 1];
    }
  }

  /**
   * Or stops at the first child that is not false: if children 0..k-1 are false and
   * child k is true or fails, the Or has child k's verdict and no later child is evaluated.
   */
  lemma {:induction false} OrStopsAt(cs: seq<Pred>, k: nat, msg: Value)
    requires k < |cs|
    requires forall j :: 0 <= j < k ==> Eval(cs[j], msg).result == Ok(false)
    requires Eval(cs[k], msg).result != Ok(false)
    ensures Eval(Or(cs), msg) == Verdict(Eval(cs[k], msg).result, CallsOf(cs[..k], msg) + Eval(cs[k], msg).calls)
    decreases k
  {
    if k > 0 {
      var rest := cs[1..];
      forall j | 0 <= j < k - 1
        ensures Eval(rest[j], msg).result == Ok(false)
      {
        assert rest[j] == cs[j + 1];
      }
      assert rest[k - 1] == cs[k];
      OrStopsAt(rest, k - 1, msg);
      CallsOfPrefix(cs, k, msg);
      OrStep(cs, msg);
      AfterAfter(Eval(cs[0], msg).calls, CallsOf(rest[..k - 1], msg), Eval(cs[k], msg));
    }
  }

  /** Not negates its child's verdict, passes its failure through and makes the same calls. */
  lemma NotNegates(c: Pred, msg: Value)
    ensures forall b: bool :: Eval(Not(c), msg).result == Ok(b) <==> Eval(c, msg).result == Ok(!b)
    ensures Eval(c, msg).result.Err? ==> Eval(Not(c), msg).result == Eval(c, msg).result
    ensures Eval(Not(c), msg).calls == Eval(c, msg).calls
    ensures Eval(Not(Not(c)), msg) == Eval(c, msg)
  {
  }

  /** `s` can be obtained from `t` by deleting elements. */
  ghost predicate IsSubseq(s: seq<string>, t: seq<string>)
    decreases |t|
  {
    s == [] || (t != [] && ((s[0] == t[0] && IsSubseq(s[1..], t[1..])) || IsSubseq(s, t[1..])))
  }

  lemma {:induction false} SubseqConcat(a: seq<string>, b: seq<string>, c: seq<string>, d: seq<string>)
    requires IsSubseq(a, b) && IsSubseq(c, d)
    ensures IsSubseq(a + c, b + d)
    decreases |b|
  {
    if a == [] {
      assert a + c == c;
      if b != [] {
        SubseqConcat(a, b[1..], c, d);
        assert (b + d)[1..] == b[1..] + d;
      } else {
        assert b + d == d;
      }
    } else if a[0] == b[0] && IsSubseq(a[1..], b[1..]) {
      SubseqConcat(a[1..], b[1..], c, d);
      assert (a + c)[1..] == a[1..] + c;
      assert (b + d)[1..] == b[1..] + d;
    } else {
      SubseqConcat(a, b[1..], c, d);
      assert (b + d)[1..] == b[1..] + d;
    }
  }

  /**
   * The leaves an evaluation calls are a subsequence of predicates_used: each call
   * is to a distinct leaf occurrence of the tree, and the calls come in tree order.
   */
  lemma {:induction false} CallsAreUsed(p: Pred, msg: Value)
    ensures IsSubseq(Eval(p, msg).calls, PredicatesUsed(p))
    decreases p, 1
  {
    match p
    case Leaf(name, _, _) =>
      assert IsSubseq([], []);
    case Not(c) => CallsAreUsed(c, msg);
    case And(cs) => CallsAreUsedAll(cs, msg);
    case Or(cs) => CallsAreUsedAll(cs, msg);
  }

  lemma {:induction false} CallsAreUsedAll(cs: seq<Pred>, msg: Value)
    ensures IsSubseq(EvalAnd(cs, msg).calls, UsedAll(cs))
    ensures IsSubseq(EvalOr(cs, msg).calls, UsedAll(cs))
    decreases cs, 0
  {
    if cs != [] {
      CallsAreUsed(cs[0], msg);
      CallsAreUsedAll(cs[1..], msg);
      var first := Eval(cs[0], msg).calls;
      SubseqConcat(first, PredicatesUsed(cs[0]), EvalAnd(cs[1..], msg).calls, UsedAll(cs[1..]));
      SubseqConcat(first, PredicatesUsed(cs[0]), EvalOr(cs[1..], msg).calls, UsedAll(cs[1..]));
      SubseqConcat(first, PredicatesUsed(cs[0]), [], UsedAll(cs[1..]));
      assert first + [] == first;
    }
  }

  /** A fieldEqual leaf never fails the must-return-bool check: it is a bool or a raised call. */
  lemma FieldEqualLeafIsBoolean(name: string, args: Dict, msg: Value)
    ensures var r := Eval(Leaf(name, FieldEqual.FieldEqualLeaf, args), msg).result;
            r.Ok? || r == Err(LeafRaised(name))
    ensures var r := Eval(Leaf(name, FieldEqual.FieldEqualLeaf, args), msg).result;
            r.Ok? ==> r.value == FieldEqual.FieldEqual(msg, Get(args, "key").value, Get(args, "value").value)
  {
  }
}
