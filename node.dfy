/**
 * Nodes of the transition graph. A node has a name, optional input and output
 * conditions, and lists of input and output edges that grow as the graph is wired.
 * Its optional comparison descriptor says how generated dispatch code recognises
 * messages coming from it: by name (the default) or by instance.
 */
module Nodes {
  import opened Wrappers
  import opened Values
  import opened Predicate
  import opened PyAst

  /**
   * Why a comparison descriptor is rejected: a ValueError in the source, except
   * for a descriptor that is not a mapping, where `.get` raises an AttributeError.
   */
  datatype ConfigError =
    | DescriptorNotMapping(desc: Value) // AttributeError: `.get` on something that is not a mapping
    | MissingType                       // no `type`, or a falsy one
    | UnsupportedType(kind: Value)      // `type` is neither 'name' nor 'instance'
    | MissingImport                     // `type` is 'instance' without a truthy `import`

  /** The `type` entry of a descriptor, if it has one. */
  function KindOf(desc: Value): Option<Value> {
    if desc.VDict? then Get(desc.entries, "type") else None
  }

  /** Validation of the comparison descriptor; VNone stands for no descriptor at all. */
  function CheckComparison(desc: Value): (r: Outcome<ConfigError>)
    ensures r.Pass? <==> (desc == VNone
      || (desc.VDict? && (KindOf(desc) == Some(VStr("name"))
          || (KindOf(desc) == Some(VStr("instance")) && Has(desc.entries, "import")
              && Truthy(Get(desc.entries, "import").value)))))
    ensures desc.VDict? && (KindOf(desc).None? || !Truthy(KindOf(desc).value)) ==> r == Fail(MissingType)
  {
    if desc == VNone then Pass
    else if !desc.VDict? then Fail(DescriptorNotMapping(desc))
    else
      var kind := Get(desc.entries, "type");
      if kind.None? || !Truthy(kind.value) then Fail(MissingType)
      else if kind.value != VStr("name") && kind.value != VStr("instance") then Fail(UnsupportedType(kind.value))
      else if kind.value == VStr("instance") && (!Has(desc.entries, "import") || !Truthy(Get(desc.entries, "import").value))
      then Fail(MissingImport)
      else Pass
  }

  /** A statement or a list of statements, as `ast_comparison` accepts for its branches. */
  datatype Suite<S> = One(stmt: S) | Many(stmts: seq<S>)

  class Node<E> {
    const name: string
    const inputCondition: Option<Pred>
    const outputCondition: Option<Pred>
    const description: Value
    const srcpath: Option<string>
    const comparison: Value
    var inputEdges: seq<E>
    var outputEdges: seq<E>

    /** The descriptor passed validation, as construction guarantees. */
    predicate Valid() {
      CheckComparison(comparison).Pass?
    }

    /** A node from valid arguments; absent edge lists start empty. */
    constructor (name: string, inputCondition: Option<Pred>, outputCondition: Option<Pred>, description: Value,
                 inputEdges: Option<seq<E>>, outputEdges: Option<seq<E>>, srcpath: Option<string>, comparison: Value)
      requires CheckComparison(comparison).Pass?
      ensures Valid()
      ensures this.name == name && this.inputCondition == inputCondition && this.outputCondition == outputCondition
      ensures this.description == description && this.srcpath == srcpath && this.comparison == comparison
      ensures this.inputEdges == (if inputEdges.Some? then inputEdges.value else [])
      ensures this.outputEdges == (if outputEdges.Some? then outputEdges.value else [])
    {
      this.name := name;
      this.inputCondition := inputCondition;
      this.outputCondition := outputCondition;
      this.description := description;
      this.inputEdges := if inputEdges.Some? then inputEdges.value else [];
      this.outputEdges := if outputEdges.Some? then outputEdges.value else [];
      this.srcpath := srcpath;
      this.comparison := comparison;
    }

    /** `Node(...)`: fails with the descriptor's error, or yields a fresh valid node. */
    static method New(name: string, inputCondition: Option<Pred>, outputCondition: Option<Pred>, description: Value,
                      inputEdges: Option<seq<E>>, outputEdges: Option<seq<E>>, srcpath: Option<string>, comparison: Value)
      returns (r: Result<Node<E>, ConfigError>)
      ensures r.Ok? <==> CheckComparison(comparison).Pass?
      ensures r.Err? ==> r.error == CheckComparison(comparison).error
      ensures r.Ok? ==> fresh(r.value) && r.value.Valid() && r.value.name == name && r.value.comparison == comparison
      ensures r.Ok? ==> r.value.inputCondition == inputCondition && r.value.outputCondition == outputCondition
      ensures r.Ok? ==> r.value.description == description && r.value.srcpath == srcpath
      ensures r.Ok? ==> r.value.inputEdges == (if inputEdges.Some? then inputEdges.value else [])
      ensures r.Ok? ==> r.value.outputEdges == (if outputEdges.Some? then outputEdges.value else [])
    {
      var check := CheckComparison(comparison);
      if check.Fail? {
        return Err(check.error);
      }
      var n := new Node(name, inputCondition, outputCondition, description, inputEdges, outputEdges, srcpath, comparison);
      return Ok(n);
    }

    /** dump_node_comparison_name: no descriptor, or one whose type is 'name'. */
    predicate DumpNodeComparisonName()
      requires Valid()
      ensures DumpNodeComparisonName() <==> DumpNodeComparisonInstance() == VNone
    {
      comparison == VNone || KindOf(comparison) == Some(VStr("name"))
    }

    /** dump_node_comparison_instance: the import path under the instance policy, otherwise None. */
    function DumpNodeComparisonInstance(): (r: Value)
      requires Valid()
      ensures r != VNone <==> KindOf(comparison) == Some(VStr("instance"))
      ensures r != VNone ==> Truthy(r) && r == Get(comparison.entries, "import").value
    {
      if comparison != VNone && KindOf(comparison) == Some(VStr("instance"))
      then Get(comparison.entries, "import").value
      else VNone
    }

    /** Appends one input edge; the output edges stay as they were. */
    method AddInputEdge(edge: E)
      modifies this
      ensures inputEdges == old(inputEdges) + [edge]
      ensures outputEdges == old(outputEdges)
    {
      inputEdges := inputEdges + [edge];
    }

    /** Appends one output edge; the input edges stay as they were. */
    method AddOutputEdge(edge: E)
      modifies this
      ensures outputEdges == old(outputEdges) + [edge]
      ensures inputEdges == old(inputEdges)
    {
      outputEdges := outputEdges + [edge];
    }

    /**
     * ast_comparison: `if <test>: body else: orelse`, where the test recognises
     * messages from this node, `node_from == '<name>'` under the name policy and
     * `isinstance(node_from, <name>)` under the instance policy. A single
     * statement becomes a one-statement list and an absent orelse an empty one.
     */
    method AstComparison<S>(body: Suite<S>, orelse: Option<Suite<S>>) returns (r: IfStmt<S>)
      requires Valid()
      ensures r.body == (if body.One? then [body.stmt] else body.stmts)
      ensures r.orelse == (if orelse.None? then [] else if orelse.value.One? then [orelse.value.stmt] else orelse.value.stmts)
      ensures DumpNodeComparisonName() ==> r.test == Compare(Name("node_from"), Const(VStr(name)))
      ensures !DumpNodeComparisonName() ==> r.test == Call(Name("isinstance"), [Name("node_from"), Name(name)], [])
    {
      var stmts: seq<S>;
      if body.One? {
        stmts := [body.stmt];
      } else {
        stmts := body.stmts;
      }
      var alternative: seq<S> := [];
      if orelse.Some? {
        if orelse.value.One? {
          alternative := [orelse.value.stmt];
        } else {
          alternative := orelse.value.stmts;
        }
      }
      var condition: Expr;
      if comparison == VNone || KindOf(comparison) == Some(VStr("name")) {
        condition := Compare(Name("node_from"), Const(VStr(name)));
      } else if KindOf(comparison) == Some(VStr("instance")) {
        condition := Call(Name("isinstance"), [Name("node_from"), Name(name)], []);
      } else {
        assert false;
      }
      r := If(condition, stmts, alternative);
    }
  }

  /**
   * For a valid node exactly one comparison policy is active: by name, or by
   * instance with a truthy import path.
   */
  lemma OnePolicyActive<E>(n: Node<E>)
    requires n.Valid()
    ensures n.DumpNodeComparisonName() <==> n.DumpNodeComparisonInstance() == VNone
    ensures !n.DumpNodeComparisonName() ==> Truthy(n.DumpNodeComparisonInstance())
  {
  }

  /**
   * Under the name policy, the generated test holds exactly for messages whose
   * `node_from` is this node's name.
   */
  lemma NameTestRecognisesNode(name: string, funcs: map<string, LeafFn>, env: map<string, Value>)
    requires "node_from" in env
    ensures ExprEval(Compare(Name("node_from"), Const(VStr(name))), funcs, env).value == Some(VBool(env["node_from"] == VStr(name)))
  {
    CompareNameConst("node_from", VStr(name), funcs, env);
  }
}
