/**
 * The knowledge graph the dashboard loads: a directed multigraph whose nodes
 * are string keys and whose edges may carry a relation label. Parallel edges
 * between the same ordered pair of nodes are kept apart, one entry each.
 */
module KnowledgeGraph {
  import opened Wrappers

  type NodeKey = string

  /** One edge; `relation` is `None` when the edge has no `label` attribute. */
  datatype Edge = Edge(src: NodeKey, dst: NodeKey, relation: Option<string>)

  /**
   * A directed multigraph: `nodes` in the graph's node iteration order,
   * `edges` in its edge iteration order, one entry per parallel edge.
   */
  datatype MultiGraph = MultiGraph(nodes: seq<NodeKey>, edges: seq<Edge>)

  predicate Distinct<T(==)>(s: seq<T>) {
    forall i, j :: 0 <= i < j < |s| ==> s[i] != s[j]
  }

  /** Node keys are unique and every edge joins two nodes of the graph. */
  predicate WellFormed(g: MultiGraph) {
    Distinct(g.nodes) && forall e :: e in g.edges ==> e.src in g.nodes && e.dst in g.nodes
  }

  /** Some edge of `es`, whatever its label, goes from `u` to `v`. */
  predicate HasEdge(es: seq<Edge>, u: NodeKey, v: NodeKey) {
    exists e :: e in es && e.src == u && e.dst == v
  }

  /** The target of every edge of `es` leaving `u`, once per edge, in edge order. */
  function Targets(es: seq<Edge>, u: NodeKey): (r: seq<NodeKey>)
    ensures forall v :: v in r <==> HasEdge(es, u, v)
  {
    if es == [] then []
    else
      var rest := Targets(es[1..], u);
      assert forall e :: e in es <==> e == es[0] || e in es[1..];
      (if es[0].src == u then [es[0].dst] else []) + rest
  }

  /** `s` with every repeated element dropped after its first occurrence. */
  function Dedup(s: seq<NodeKey>): (r: seq<NodeKey>)
    ensures forall x :: x in r <==> x in s
    ensures Distinct(r)
  {
    if s == [] then []
    else
      var init := s[..|s| - 1];
      var t := Dedup(init);
      assert s == init + [s[|s| - 1]];
      if s[|s| - 1] in t then t else t + [s[|s| - 1]]
  }

  /** `G.successors(u)`: each node that some edge from `u` reaches, exactly once. */
  function Successors(g: MultiGraph, u: NodeKey): (r: seq<NodeKey>)
    ensures Distinct(r)
    ensures forall v :: v in r <==> HasEdge(g.edges, u, v)
  {
    Dedup(Targets(g.edges, u))
  }

  /**
   * The label of each parallel edge from `u` to `v`, in edge order: the
   * attribute dictionaries of `G[u][v].values()`, reduced to their labels.
   */
  function ParallelLabels(es: seq<Edge>, u: NodeKey, v: NodeKey): (r: seq<Option<string>>)
    ensures forall l :: l in r <==> Edge(u, v, l) in es
  {
    if es == [] then []
    else
      var rest := ParallelLabels(es[1..], u, v);
      assert forall e :: e in es <==> e == es[0] || e in es[1..];
      (if es[0].src == u && es[0].dst == v then [es[0].relation] else []) + rest
  }

  /**
   * `any(rel == data.get('label') for data in ...)`: some label in `labels`
   * equals `rel`. A missing label never matches.
   */
  function AnyLabelled(labels: seq<Option<string>>, rel: string): (r: bool)
    ensures r <==> Some(rel) in labels
  {
    if labels == [] then false
    else
      assert labels == [labels[0]] + labels[1..];
      labels[0] == Some(rel) || AnyLabelled(labels[1..], rel)
  }

  /** Some parallel edge from `u` to `v` carries label `rel`. */
  lemma AnyLabelledBetween(g: MultiGraph, u: NodeKey, v: NodeKey, rel: string)
    ensures AnyLabelled(ParallelLabels(g.edges, u, v), rel) <==> Edge(u, v, Some(rel)) in g.edges
  {
  }
}
