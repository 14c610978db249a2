/** The flow extractor (`get_smart_flow_data`): asks the text-generation
    service for a flow graph and collapses every failure into one fixed
    fallback graph.

    The service is an oracle: the completion call together with
    `json.loads` of its content, for a given process narrative. The prompt
    wording around the narrative is part of that oracle. */
module Extraction {
  import opened Wrappers
  import opened PyStr
  import opened FlowGraph
  import opened Diagram

  /** How a call on a configured client can raise inside the `try`: the
      call itself fails (network, authentication, service error), or the
      content is not JSON. */
  datatype ServiceFailure = CallFailed | NotJson

  /** A configured service client, as the oracle described above. */
  datatype Client = Client(ask: string -> Result<Payload, ServiceFailure>)

  /** The one node of the fallback graph: id "1", label "Start", type "action". */
  const FallbackNode := RawNode(Some("1"), Some("Start"), Some("action"))

  /** The graph substituted for any failure: one node and no edges. */
  const Fallback: Payload := Object(RawGraph(Some([FallbackNode]), Some([])))

  /** `get_smart_flow_data(client, process_details)`: never fails; the
      result is either the fallback graph or exactly the value the service
      returned, whose shape is not checked. A missing client (`None`) raises
      `AttributeError` at `client.chat` inside the `try`, so it too gives
      the fallback. */
  function GetSmartFlowData(client: Option<Client>, details: string): (r: Payload)
    ensures r == Fallback || (client.Some? && client.value.ask(details) == Success(r))
    ensures client.None? || client.value.ask(details).Failure? ==> r == Fallback
    ensures client.Some? && client.value.ask(details).Success? ==> r == client.value.ask(details).value
  {
    match client
    case None => Fallback
    case Some(c) => c.ask(details).GetOr(Fallback)
  }

  /** Without a configured client the extractor returns the fallback,
      whatever the narrative. */
  lemma AbsentClientGivesFallback(details: string)
    ensures GetSmartFlowData(None, details) == Fallback
  {
  }

  /** The extractor returns what the service parsed, unvalidated: any
      payload, including a graph without nodes or a JSON value that is not
      an object at all, comes through as it is. */
  lemma ResponseReturnedUnchecked(details: string, p: Payload)
    ensures GetSmartFlowData(Some(Client(_ => Success(p))), details) == p
  {
  }

  /** The fallback node is an ordinary step with a short label. */
  lemma FallbackNodeDecl()
    ensures EncodeNode("1", FallbackNode) == NodeDecl("1", "Start", map[])
  {
    LowerOfLowerCase("action");
    assert KindOf(NodeType(FallbackNode)) == Other;
    assert WrapLabel("Start") == "Start";
  }

  /** The fallback graph always draws: one declaration for its node, with
      the default (rounded-rectangle) style, and no edges, with image path
      `flowchart.png`. */
  lemma FallbackDrawsOneDefaultNode()
    ensures GenerateFlowchart(Fallback, DefaultOutputPath)
      == Success(Drawing(GraphAttrs, [NodeDecl("1", "Start", map[])], "flowchart.png"))
    ensures Effective(GenerateFlowchart(Fallback, DefaultOutputPath).value.decls[0]) == NodeDefaults
  {
    FallbackComplete();
    FallbackNodeDecl();
    var r := GenerateFlowchart(Fallback, DefaultOutputPath);
    assert r.Success?;
    assert r.value.decls == [NodeDecl("1", "Start", map[])] by {
      assert |r.value.decls| == 1;
      assert r.value.decls[0] == NodeDecl("1", "Start", map[]);
    }
    assert r.value == Drawing(GraphAttrs, [NodeDecl("1", "Start", map[])], "flowchart.png");
  }

  /** The fallback graph is one node with an id and no edges, and its image
      goes to `flowchart.png`. */
  lemma FallbackComplete()
    ensures NodesOf(Fallback.graph) == [FallbackNode] && EdgesOf(Fallback.graph) == []
    ensures Complete(Fallback.graph)
    ensures DefaultOutputPath + ".png" == "flowchart.png"
  {
  }

  /** Extraction followed by encoding, as the document pipeline runs them:
      when the service fails, the drawing is exactly the one-node fallback
      drawing; otherwise it is whatever the service's graph encodes to. */
  lemma ExtractThenDraw(client: Option<Client>, details: string)
    ensures client.None? || client.value.ask(details).Failure? ==>
      GenerateFlowchart(GetSmartFlowData(client, details), DefaultOutputPath)
        == Success(Drawing(GraphAttrs, [NodeDecl("1", "Start", map[])], "flowchart.png"))
    ensures client.Some? && client.value.ask(details).Success? ==>
      GenerateFlowchart(GetSmartFlowData(client, details), DefaultOutputPath)
        == GenerateFlowchart(client.value.ask(details).value, DefaultOutputPath)
  {
    FallbackDrawsOneDefaultNode();
  }
}
