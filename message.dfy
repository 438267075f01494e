/**
 * Messages travelling through the graph: a payload with the node that sent it and,
 * optionally, the node it is addressed to. Nodes are resolved from their names by
 * the system's lookup, which the model takes as a parameter.
 */
module Messages {
  import opened Wrappers
  import opened Values

  /** Message(message, node_from, node_to); the accessors are the fields. */
  datatype Message<N> = Message(payload: Value, nodeFrom: Option<N>, nodeTo: Option<N>)

  /** Why a raw message is rejected (KeyError in the source). */
  datatype MessageError = NoNodeFrom | NoMessageContent

  /**
   * Message.create: the raw message must name its sender and carry content
   * (checked in that order); the target is looked up only when it is given and truthy.
   */
  function Create<N>(raw: Dict, nodeByName: Value -> N): (r: Result<Message<N>, MessageError>)
    ensures r.Ok? <==> Has(raw, "node_from") && Has(raw, "message")
    ensures !Has(raw, "node_from") ==> r == Err(NoNodeFrom)
    ensures Has(raw, "node_from") && !Has(raw, "message") ==> r == Err(NoMessageContent)
    ensures r.Ok? ==> r.value.payload == Get(raw, "message").value
    ensures r.Ok? ==> r.value.nodeFrom == Some(nodeByName(Get(raw, "node_from").value))
    ensures r.Ok? ==> (r.value.nodeTo.Some? <==> Has(raw, "node_to") && Truthy(Get(raw, "node_to").value))
    ensures r.Ok? && r.value.nodeTo.Some? ==> r.value.nodeTo.value == nodeByName(Get(raw, "node_to").value)
  {
    if !Has(raw, "node_from") then Err(NoNodeFrom)
    else if !Has(raw, "message") then Err(NoMessageContent)
    else
      var to := Get(raw, "node_to");
      var nodeTo := if to.Some? && Truthy(to.value) then Some(nodeByName(to.value)) else None;
      Ok(Message(Get(raw, "message").value, Some(nodeByName(Get(raw, "node_from").value)), nodeTo))
  }

  /** The raw form of a message: sender name, content and, when given, target name. */
  function Raw(from: Value, payload: Value, to: Option<Value>): Dict {
    [("node_from", from), ("message", payload)] + (if to.Some? then [("node_to", to.value)] else [])
  }

  /**
   * Creating from a raw form gives back its content and the looked-up sender, and
   * the looked-up target exactly when a truthy target name was given.
   */
  lemma CreateFromRaw<N>(from: Value, payload: Value, to: Option<Value>, nodeByName: Value -> N)
    ensures var r := Create(Raw(from, payload, to), nodeByName);
      r.Ok? && r.value.payload == payload && r.value.nodeFrom == Some(nodeByName(from))
      && r.value.nodeTo == (if to.Some? && Truthy(to.value) then Some(nodeByName(to.value)) else None)
  {
    var raw := Raw(from, payload, to);
    assert raw[0] == ("node_from", from) && raw[1] == ("message", payload);
    assert Find(raw, "node_from") == Some(0);
    assert Find(raw, "message") == Some(1);
    if to.Some? {
      assert raw[2] == ("node_to", to.value);
      assert Find(raw, "node_to") == Some(2);
    } else {
      assert Find(raw, "node_to") == None;
    }
  }
}
