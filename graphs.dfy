/** The graph shape every pipeline returns: `{"name", "count"}` nodes and
    `{"source", "target", "weight"}` edges. */
module Graphs {

  /** How many nodes and edges `merge` and `clean_graph_with_llm` keep. */
  const TopNodes: nat := 50
  const TopEdges: nat := 200

  datatype Node = Node(name: string, count: int)

  datatype Edge = Edge(source: string, target: string, weight: int)

  datatype Graph = Graph(nodes: seq<Node>, edges: seq<Edge>)

  /** `[{"name": n, "count": c} for n, c in entries]` */
  function ToNodes(entries: seq<(string, int)>): seq<Node>
  {
    seq(|entries|, i requires 0 <= i < |entries| => Node(entries[i].0, entries[i].1))
  }

  /** `[{"source": a, "target": b, "weight": w} for (a, b), w in entries]` */
  function ToEdges(entries: seq<((string, string), int)>): seq<Edge>
  {
    seq(|entries|, i requires 0 <= i < |entries| => Edge(entries[i].0.0, entries[i].0.1, entries[i].1))
  }
}
