/**
 * The "Knowledge Graph" tab as a whole: choose the centre, project its
 * neighbourhood, take the induced subgraph and render its nodes and edges.
 */
module Dashboard {
  import opened Wrappers
  import opened KnowledgeGraph
  import opened Projection
  import opened Display

  /** The diagram: its centre and the nodes and edges handed to the widget. */
  datatype GraphView = GraphView(centre: NodeKey, nodes: seq<VisNode>, edges: seq<VisEdge>)

  /** The keys of the widget nodes, in order. */
  function Ids(vs: seq<VisNode>): seq<NodeKey> {
    seq(|vs|, k requires 0 <= k < |vs| => vs[k].id)
  }

  /**
   * The body of the tab's `try` block. An empty graph fails with
   * `EmptyGraph`; otherwise the diagram is centred as `SelectCentre` says and
   * draws the induced subgraph of the neighbourhood. For a well-formed graph
   * it shows each neighbourhood node exactly once, each under its category,
   * and every edge of the full graph between two shown nodes, whatever its
   * label, and no other edge.
   */
  method KnowledgeGraphTab(g: MultiGraph, movieKeys: seq<NodeKey>) returns (r: Result<GraphView, ProjectionError>)
    ensures r.Failure? <==> g.nodes == []
    ensures r.Success? ==> SelectCentre(g) == Success(r.value.centre)
    ensures r.Success? ==>
              var h := Induced(g, Neighbourhood(g, r.value.centre));
              && |r.value.nodes| == |h.nodes|
              && (forall k :: 0 <= k < |h.nodes| ==>
                    var c := Classify(h.nodes[k], set m | m in movieKeys);
                    r.value.nodes[k] == VisNode(h.nodes[k], DisplayLabel(h.nodes[k]), Colour(c), Title(c)))
              && |r.value.edges| == |h.edges|
              && (forall k :: 0 <= k < |h.edges| ==>
                    r.value.edges[k] == VisEdge(h.edges[k].src, h.edges[k].dst, EdgeText(h.edges[k].relation)))
    ensures r.Success? && WellFormed(g) ==>
              && Distinct(Ids(r.value.nodes))
              && (forall x :: x in Ids(r.value.nodes) <==> x in Neighbourhood(g, r.value.centre))
              && (forall ve :: ve in r.value.edges ==> ve.from in Ids(r.value.nodes) && ve.to in Ids(r.value.nodes))
              && (forall e :: e in g.edges && e.src in Ids(r.value.nodes) && e.dst in Ids(r.value.nodes) ==>
                    VisEdge(e.src, e.dst, EdgeText(e.relation)) in r.value.edges)
  {
    var movies := set m | m in movieKeys;
    var centre := SelectCentre(g);
    if centre.Failure? {
      return Failure(centre.error);
    }
    var c := centre.value;
    var sub := ProjectNodes(g, c);
    var h := Induced(g, sub);
    var nodes := RenderNodes(h.nodes, movies);
    var edges := RenderEdges(h.edges);
    r := Success(GraphView(c, nodes, edges));
    assert Ids(nodes) == h.nodes;
    if WellFormed(g) {
      ProjectedSubgraph(g, c);
      forall ve | ve in edges ensures ve.from in h.nodes && ve.to in h.nodes {
        var k :| 0 <= k < |edges| && edges[k] == ve;
        assert h.edges[k] in h.edges;
      }
      forall e | e in g.edges && e.src in h.nodes && e.dst in h.nodes
        ensures VisEdge(e.src, e.dst, EdgeText(e.relation)) in edges
      {
        var k :| 0 <= k < |h.edges| && h.edges[k] == e;
        assert edges[k] == VisEdge(e.src, e.dst, EdgeText(e.relation));
      }
    }
  }
}
