/** The flow graph as it arrives from the text-generation service: the value
    `json.loads` produced, before anything checks its shape.

    Each field of a node or edge object may be absent; an absent key is
    `None`. The encoder reads some keys with a default (`.get(key, '')`)
    and others by subscript (`node['id']`), which raises when absent. */
module FlowGraph {
  import opened Wrappers

  /** One element of the `nodes` array: keys `id`, `label`, `type`. */
  datatype RawNode = RawNode(id: Option<string>, text: Option<string>, kind: Option<string>)

  /** One element of the `edges` array: keys `from`, `to`, `label`. */
  datatype RawEdge = RawEdge(source: Option<string>, target: Option<string>, text: Option<string>)

  /** A JSON object with optional `nodes` and `edges` arrays. */
  datatype RawGraph = RawGraph(nodes: Option<seq<RawNode>>, edges: Option<seq<RawEdge>>)

  /** Whatever `json.loads` returned: an object, or any other JSON value
      (array, string, number, boolean, null), which has no `.get`. */
  datatype Payload = Object(graph: RawGraph) | NonObject

  /** `data.get('nodes', [])`. */
  function NodesOf(g: RawGraph): seq<RawNode> {
    g.nodes.GetOr([])
  }

  /** `data.get('edges', [])`. */
  function EdgesOf(g: RawGraph): seq<RawEdge> {
    g.edges.GetOr([])
  }

  /** `node.get('label', '')`. */
  function NodeLabel(n: RawNode): string {
    n.text.GetOr("")
  }

  /** `node.get('type', '')`. */
  function NodeType(n: RawNode): string {
    n.kind.GetOr("")
  }

  /** `edge.get('label', '')`. */
  function EdgeLabel(e: RawEdge): string {
    e.text.GetOr("")
  }
}
