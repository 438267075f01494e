# nodenator predicate engine and transition graph, in Dafny

nodenator describes a system as a graph of nodes joined by edges. Each edge carries
a guard, a boolean predicate over the message travelling along it. This project
models the core of that system:

- **Construction** (`predicate.dfy`). A declarative guard description is a nested
  mapping with the keys `name`/`args`, `or`, `not` and `and`. The builder turns it
  into a predicate tree of Leaf, And, Or and Not nodes. Leaf names are resolved through
  a registry of leaf functions, and a name that does not resolve fails immediately.
  The children of `and`/`or` are built by a loop, modelled as the method
  `BuildChildren`.
- **Evaluation** (`evaluate.dfy`). And and Or short-circuit, Not negates, and a leaf
  calls its function and insists on a bool. The spec function `Eval` also records
  which leaves were called, so that short-circuiting can be stated. The methods
  `Evaluate`, `EvaluateAnd` and `EvaluateOr` run the source's early-exit loops and are
  proved equal to `Eval`.
- **Canonical string** (`render.dfy`). This covers `_args2str` (a loop, the method
  `ArgsToStr`) and `__str__` (a `reduce`).
- **Code synthesis** (`pyast.dfy`, `synthesize.dfy`). A tree becomes a target-language
  expression: a call `name(message, k=v, ...)` per leaf, `and`/`or` operators and
  `not`. The target's own semantics are modelled: `and`/`or` return operands and `not`
  tests truthiness. The theorem `SynthesisAgrees` proves that running the synthesised
  expression gives the verdict of `evaluate` and calls the same leaves in the same
  order. It holds for trees in which every And and Or has at least one child, and
  it says nothing when a leaf returns a non-bool.
- **The built-in leaf `fieldEqual`** (`field_equal.dfy`). It walks a key path through
  the message and compares the value it finds. Any failure along the way gives False.
  `keylist2str` (`helpers.dfy`) renders such a path.
- **The graph** (`node.dfy`, `edge.dfy`, `message.dfy`).
  - `Node` is a class whose edge lists grow in place. Its comparison descriptor is
    validated at construction, and its `ast_comparison` builds the dispatch test.
  - `Edge` is an immutable record.
  - `Message.create` checks the raw message and resolves node names through the
    system's lookup.

Values of the message and of the descriptions are modelled by `Values.Value`: None,
bool, int, str, list and mapping. A mapping is a sequence of entries and lookup takes
the first entry with the key. Leaf functions are values of type
`(Value, Dict) -> Return`, where `Return` is a returned value or a raised exception.

## Model

| member | source | states |
|---|---|---|
| Helpers.KeyListToStr | nodenator/utils/helpers.py:33 | the rendering is empty exactly for the empty key list, and takes at least four characters per key |
| Helpers.KeyListConcat | nodenator/utils/helpers.py:33 | rendering `a + b` is rendering `a` followed by rendering `b` |
| Helpers.KeyListAt | nodenator/utils/helpers.py:33 | key `i` appears as `['` + str(k) + `']` between the renderings of the keys before it and after it, so keys appear in list order |
| Helpers.KeyListLength | nodenator/utils/helpers.py:33 | the output length is the sum over the keys of len(str(k)) + 4 |
| FieldEqual.Normalize | nodenator/predicates/fieldEqual.py:6 | a list or string index is valid exactly when -n <= i < n, and a negative index counts from the end |
| FieldEqual.FieldEqualLeaf | nodenator/predicates/fieldEqual.py:4-9 | the call returns exactly when the keyword arguments bind `key` and `value` and nothing else; it then returns a bool equal to the fieldEqual comparison |
| FieldEqual.Step | nodenator/predicates/fieldEqual.py:6 | one subscript `m[k]`: a mapping needs a str key present in it and yields its entry; a list or str needs an int or bool key with -n <= k < n and yields the item (or one-character str) at that index, counted from the end when negative; anything else fails |
| FieldEqual.Walk | nodenator/predicates/fieldEqual.py:6 | the reduce over the path: the empty path yields the message, a one-key path is one subscript, and walking into a scalar fails; WalkConcat states the general case |
| FieldEqual.FieldEqual | nodenator/predicates/fieldEqual.py:4-9 | True iff walking the key path reaches a value equal to `value`; with the empty path it compares the whole message |
| FieldEqual.WalkConcat | nodenator/predicates/fieldEqual.py:6 | walking a concatenated path walks the first part, then the second from where the first ended; a failure stops the walk |
| FieldEqual.FieldEqualMeaning | nodenator/predicates/fieldEqual.py:6-9 | a failing walk gives False and never an error; a scalar key compares exactly as the one-element path `[key]` |
| FieldEqual.NestedFieldEqual | nodenator/predicates/fieldEqual.py:6-7 | once a prefix of the path reaches `inner`, comparing along the whole path is comparing along the rest from `inner` |
| FieldEqual.BrokenPrefixIsFalse | nodenator/predicates/fieldEqual.py:8-9 | a prefix that cannot be walked makes every longer path compare False |
| Predicate.NonMappingError | nodenator/predicate.py:59-68 | a description that is not a mapping is rejected, either as an unknown predicate or as a type error |
| Predicate.Construct | nodenator/predicate.py:50-68 | a tree that is built holds, at every leaf, the function the registry gives for the leaf's name |
| Predicate.LeafCreate | nodenator/leafPredicate.py:106-117 | succeeds iff the name resolves in the registry and the args are absent, None or a mapping; the leaf keeps the name and the resolved function; absent or None args become the empty mapping; an unresolved name is a lookup failure |
| Predicate.NaryCreate | nodenator/buildinPredicate.py:61-67 | an operand that is not a list is rejected; a list builds iff all its elements build, and then gives the And or Or for the operator over exactly the children ConstructAll builds from the elements; a built node holds registered leaves only |
| Predicate.UnaryCreate | nodenator/buildinPredicate.py:84-87 | a list operand is rejected; any other operand builds iff it builds on its own, and then gives `Not` over exactly the tree built from it |
| Predicate.NaryChildren | nodenator/predicate.py:61-66 | a description whose deciding key is `and`/`or` over a list of k descriptions builds the matching operator with exactly k children, child i built from element i; it fails iff some element fails, with the error of the first one that does |
| Predicate.ConstructAll | nodenator/buildinPredicate.py:64-67 | k descriptions give exactly k children, each with registered leaves |
| Predicate.BuildChildren | nodenator/buildinPredicate.py:64-67 | the append loop computes exactly ConstructAll: the same children in order, or the same error |
| Predicate.ChildrenInOrder | nodenator/buildinPredicate.py:64-67 | the children are built iff every element builds; child i is built from element i; a failure reports the error of the first failing element |
| Predicate.ConstructOkIff | nodenator/predicate.py:59-68 | construction succeeds iff every level has a recognised key, every `and`/`or` value is a list, no `not` value is a list, every leaf name resolves and every args value is absent, None or a mapping |
| Predicate.NameBuildsLeaf | nodenator/predicate.py:59-60 | a mapping with `name` builds a leaf from `name` and `args`, whatever other keys it has |
| Predicate.DispatchPrecedence | nodenator/predicate.py:61-68 | without `name`, `or` wins over `not` and `not` wins over `and`, and the winning key's operand is handed to the n-ary or unary creation; a mapping with none of the four keys (the empty one included) is an unknown predicate |
| Predicate.PredicatesUsed | nodenator/buildinPredicate.py:69-90 | predicates_used concatenates the children's lists in child order without de-duplication, so its length is the number of leaves (an independently defined count), with multiplicity |
| Predicate.UsedAreRegistered | nodenator/leafPredicate.py:103 | every name predicates_used reports was resolved by the registry |
| Evaluate.Eval | nodenator/buildinPredicate.py:213-221 | the verdict of evaluate (Not negates its child here; leaves and And/Or in the rows below); a failure names a leaf that was called; FailureIsLastCall pins it to the last call |
| Evaluate.FailureIsLastCall | nodenator/leafPredicate.py:88-95 | a failed evaluation has made at least one call, and its last call is the leaf whose exception or non-bool result propagated |
| Evaluate.LeafResult | nodenator/leafPredicate.py:88-95 | a bool result is passed through unchanged; a non-bool result is an error; a raised exception propagates |
| Evaluate.Evaluate | nodenator/leafPredicate.py:80-95 | the recursive method (a leaf calls its function and checks the result, Not negates its child, And/Or run their loops) computes exactly Eval: the same verdict and the same leaf calls |
| Evaluate.EvaluateAnd | nodenator/buildinPredicate.py:133-136 | the early-exit loop over the children computes exactly EvalAnd: it returns at the first child that is not True, with that child's verdict |
| Evaluate.EvaluateOr | nodenator/buildinPredicate.py:176-179 | the early-exit loop over the children computes exactly EvalOr: it returns at the first child that is not False, with that child's verdict |
| Evaluate.AndTrueIff | nodenator/buildinPredicate.py:133-136 | And is True iff every child is True (so `And([])` is True), and it then has called every child's leaves in order |
| Evaluate.AndStopsAt | nodenator/buildinPredicate.py:133-136 | at the first child that is not True, And returns that child's verdict, and only children up to it have been evaluated |
| Evaluate.OrFalseIff | nodenator/buildinPredicate.py:176-179 | Or is False iff every child is False (so `Or([])` is False), and it then has called every child's leaves in order |
| Evaluate.OrStopsAt | nodenator/buildinPredicate.py:176-179 | at the first child that is not False, Or returns that child's verdict, and only children up to it have been evaluated |
| Evaluate.NotNegates | nodenator/buildinPredicate.py:213-221 | Not is the negation of its child's result; it passes failures through and makes the same calls; double negation is the identity |
| Evaluate.CallsAreUsed | nodenator/buildinPredicate.py:69-70 | the leaves an evaluation calls form a subsequence of predicates_used |
| Evaluate.FieldEqualLeafIsBoolean | nodenator/leafPredicate.py:92-93 | a fieldEqual leaf never triggers the must-return-bool error; its verdict is the fieldEqual comparison |
| Render.ArgsToStr | nodenator/leafPredicate.py:47-59 | the accumulating loop yields the entries joined by ", " (str values as `k='v'`, others as `k=str(v)`); the result is empty iff there are no args |
| Render.ReduceIsJoin | nodenator/buildinPredicate.py:103 | the left fold `reduce(x + sep + y)` equals joining with the separator |
| Render.ToString | nodenator/buildinPredicate.py:192 | every string form ends in `)`; And, Or and Not forms start with `(` and a leaf's starts with its name and `(` (leafPredicate.py:67); the full shape is stated by StringShape |
| Render.StringShape | nodenator/buildinPredicate.py:103-192 | And/Or render as their children's strings, in order, joined by ` and `/` or ` inside one pair of parentheses; Not renders as `(not c)`; a leaf renders as its name, `(`, its argument string and `)` (leafPredicate.py:67), so one without args renders as `name()` |
| PyAst.CompareNameConst | nodenator/node.py:91-92 | `name == literal` evaluates to True exactly when the variable holds that literal |
| Synthesize.Ast | nodenator/leafPredicate.py:75-78 | a leaf becomes a call to its name with the one positional argument `message` and one literal keyword per argument entry; And/Or become a BoolOp of the matching operator with one operand per child in order; Not becomes `not` over its child |
| Synthesize.SynthesisAgrees | nodenator/buildinPredicate.py:111-221 | for every tree with at least one child per And/Or whose leaves are registered, running the synthesised expression gives the same boolean as evaluate (or raises when a leaf raised) and calls the same leaves in the same order |
| Synthesize.NonBooleanLeafDiverges | nodenator/leafPredicate.py:92-93 | the synthesised code does not check leaf results: a leaf returning 1 under `not` makes evaluate fail but the generated code yields False |
| Synthesize.EmptyAndDiverges | nodenator/buildinPredicate.py:111-136 | an And with no children evaluates to True, while its synthesised BoolOp has no operand and is taken to fail |
| Nodes.CheckComparison | nodenator/node.py:52-60 | a descriptor is accepted iff it is absent, or has type `name`, or has type `instance` with a truthy `import`; a missing or falsy type is its own error |
| Nodes.Node.constructor | nodenator/node.py:29-61 | the node keeps every argument; absent edge lists start empty; the descriptor is valid |
| Nodes.Node.New | nodenator/node.py:29-61 | construction fails exactly when the descriptor is invalid, with its error; otherwise it yields a fresh node that keeps the given name, conditions, description, source path, descriptor and edges |
| Nodes.Node.DumpNodeComparisonInstance | nodenator/node.py:103-112 | the import path, which is truthy, under the instance policy, and None otherwise |
| Nodes.Node.DumpNodeComparisonName | nodenator/node.py:114-120 | no descriptor or type `name`; it holds exactly when dump_node_comparison_instance is None |
| Nodes.Node.AddInputEdge | nodenator/node.py:138-145 | appends exactly one edge at the end of the input list; the output list is unchanged |
| Nodes.Node.AddOutputEdge | nodenator/node.py:147-154 | appends exactly one edge at the end of the output list; the input list is unchanged |
| Nodes.Node.AstComparison | nodenator/node.py:71-101 | the test is `node_from == '<name>'` under the name policy and `isinstance(node_from, <name>)` under the instance policy; a single body or orelse becomes a one-element list, and an absent orelse an empty one |
| Nodes.OnePolicyActive | nodenator/node.py:103-120 | for a valid node exactly one policy is active: dump_node_comparison_name holds iff dump_node_comparison_instance is None |
| Nodes.NameTestRecognisesNode | nodenator/node.py:90-92 | the name-policy test is True exactly for messages whose `node_from` is this node's name |
| Edges.NewEdge | nodenator/edge.py:29-43 | the constructor takes the target before the source; each accessor returns the argument of the same name, and the guard is exactly the one given |
| Edges.LabelOfNewEdge | nodenator/edge.py:45-51 | an edge built with a name reports that name, and one built without a name reports its identity token |
| Messages.Create | nodenator/message.py:40-54 | fails without `node_from`, and this is checked first; then fails without `message`; the target is looked up iff `node_to` is present and truthy; the sender is the lookup of `node_from` and the payload is `message` |
| Messages.CreateFromRaw | nodenator/message.py:49-54 | a raw message built from a sender name, content and an optional target name gives back that content, the looked-up sender and the looked-up target exactly when the target name is truthy |

## Left out

- Predicate.LeafCreate: an `args` value that is neither absent, None nor a mapping is rejected at construction. The source stores it and fails later, when the leaf is evaluated or rendered.
- Synthesize.SynthesisAgrees: the theorem requires at least one child under every And and Or. With none, evaluate still gives a verdict, but the model takes the synthesised empty `BoolOp` to fail (see `EmptyAndDiverges`); what the target does with it is not modelled. Nothing is stated when a leaf returns a non-bool: `evaluate` then fails and the synthesised code carries the value on (see `NonBooleanLeafDiverges`).
- Nodes.Node.AstComparison: the instance-policy test is only built, not interpreted. Classes and `isinstance` are not part of the expression interpreter.
- Render.StringShape: the string form requires at least two children under every And and Or (`ReadyToRender`). With fewer, `reduce` raises or returns a bare child, and `__str__` fails in the source.
- Predicate.UsedAreRegistered: predicates_used is modelled as the list of leaf names rather than of function objects. For a built tree, each name determines its function through the registry.
- Equality of values is structural. Python's `True == 1` and the order-insensitive comparison of mappings are not modelled. Floats, Python 2 `unicode`/`long` and escaping in `repr` are left out.
- The leaf's string form and its synthesised call use the name from the description. The source uses the resolved function's `__name__` (nodenator/leafPredicate.py:67, 75). The two differ when a name is registered for an alias or a decorated function. `SynthesisAgrees` assumes they are the same: the generated program binds each leaf name to the function the registry gives for it.
- Leaf functions are pure values `(Value, Dict) -> Return`. In the source every leaf receives the same mutable message object, and a leaf may keep state between calls. The short-circuit lemmas that compare call traces, and the agreement between `evaluate` and the synthesised code, rely on leaves being pure.
- Mapping keys are strings only. A YAML mapping with int or bool keys, which fieldEqual could subscript, cannot be represented.
- Mappings are sequences of entries whose order is the iteration order. Mappings parsed from YAML/JSON have distinct keys, and lookups take the first match.
- Error message texts (including the `dict2json` dump of an unknown predicate) are not modelled, only which error is raised.
- The registry (the YAML configuration, `sys.path` changes, dynamic import and visualisation styles) is replaced by a map from name to leaf function. nodenator/config.py is not part of this model.
- `system.node_by_name` is a total function parameter of `Messages.Create`, so it never fails. The source looks up `node_to` before `node_from` (nodenator/message.py:53-54). If the lookup raised, that order would decide which failure surfaces, and the model does not capture it. The raw message is taken to be a mapping.
- `pushd` (a working-directory change), `dict2json` (a JSON library wrapper) and `dereference_keylist` (which does not do what it documents) are not modelled. The correct key walk is `FieldEqual.Walk`.
- `src_defined` of the built-in predicates calls a method leaves do not have, and `NaryPredicate._str` is never called. Neither is modelled.
- `logging.info` calls are diagnostics only.
- Python `ast` specifics (`ctx`, `starargs`, the `ast.Expr` wrapping of operands) are replaced by the small `PyAst.Expr` type. A `BoolOp` with one operand is run as that operand, as the Python 2.7 compiler does with it. A `BoolOp` with no operand is taken to fail; this is the model's choice, since what the target does with it is not modelled.
- The `id(self)` fallback of `Node.name()` cannot happen, because a node's name is a non-None string. For `Edge.name()` it is the `Identity` label.
- Node accessors (`description`, `srcpath`, `input_edges`, `output_edges`, `input_condition`, `output_condition`) are the class's fields. Message and Edge accessors are the datatype's fields.
- The edge lists passed to the Node constructor are copied into the node. Aliasing between a caller's list and the node's list is not modelled.
