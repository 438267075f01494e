/**
 * Edges of the transition graph: an immutable record of the two nodes it joins,
 * the guard that must hold for a message to travel along it, a description and
 * an optional name.
 */
module Edges {
  import opened Wrappers
  import opened Values
  import opened Predicate
  import Nodes

  datatype Edge = Edge(nodeTo: Nodes.Node<Edge>, nodeFrom: Nodes.Node<Edge>, condition: Pred,
                       description: Value, name: Option<string>)

  /** What `name()` gives: the name supplied, or the edge's identity when there is none. */
  datatype EdgeLabel = Given(s: string) | Identity

  /**
   * `Edge(node_to, node_from, condition, description, name)`: the constructor takes
   * the target before the source, and each accessor returns the argument of the
   * same name.
   */
  function NewEdge(nodeTo: Nodes.Node<Edge>, nodeFrom: Nodes.Node<Edge>, condition: Pred,
                   description: Value, name: Option<string>): (e: Edge)
    ensures e.nodeTo == nodeTo && e.nodeFrom == nodeFrom
    ensures e.description == description && e.name == name
    ensures e.condition == condition
  {
    Edge(nodeTo, nodeFrom, condition, description, name)
  }

  /** name(): the given name when there is one, otherwise the identity token. */
  function Label(e: Edge): EdgeLabel {
    if e.name.Some? then Given(e.name.value) else Identity
  }

  /** A named edge reports its name; an unnamed one reports its identity. */
  lemma LabelOfNewEdge(nodeTo: Nodes.Node<Edge>, nodeFrom: Nodes.Node<Edge>, condition: Pred,
                       description: Value, s: string)
    ensures Label(NewEdge(nodeTo, nodeFrom, condition, description, Some(s))) == Given(s)
    ensures Label(NewEdge(nodeTo, nodeFrom, condition, description, None)) == Identity
  {
  }
}
