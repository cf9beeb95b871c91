/**
 * The neighbourhood shown on the "Knowledge Graph" tab: the centre node, the
 * nodes the centre rated, the genres those nodes belong to, and every edge of
 * the full graph among them.
 */
module Projection {
  import opened Wrappers
  import opened KnowledgeGraph

  /** The preferred centre of the diagram. */
  const PREFERRED_CENTRE: NodeKey := "User_1"
  /** The relation a first-hop edge must carry. */
  const RATED: string := "rated"
  /** The relation a second-hop edge must carry. */
  const BELONGS_TO: string := "belongs_to"

  /** Why no diagram could be built. */
  datatype ProjectionError = EmptyGraph

  /**
   * The centre of the diagram: `User_1` when the graph has that node,
   * otherwise the first node in the graph's node order; an empty graph has
   * no first node, and that failure is reported instead of a centre.
   */
  function SelectCentre(g: MultiGraph): (r: Result<NodeKey, ProjectionError>)
    ensures r.Failure? <==> g.nodes == []
    ensures r.Success? ==> r.value in g.nodes
    ensures PREFERRED_CENTRE in g.nodes ==> r == Success(PREFERRED_CENTRE)
    ensures PREFERRED_CENTRE !in g.nodes && g.nodes != [] ==> r == Success(g.nodes[0])
  {
    if PREFERRED_CENTRE in g.nodes then Success(PREFERRED_CENTRE)
    else if g.nodes == [] then Failure(EmptyGraph)
    else Success(g.nodes[0])
  }

  /** The targets of the edges labelled `rel` that leave a node of `from`. */
  function Hop(g: MultiGraph, from: set<NodeKey>, rel: string): set<NodeKey> {
    set e | e in g.edges && e.src in from && e.relation == Some(rel) :: e.dst
  }

  /** The nodes the centre reaches over one `rated` edge. */
  function RatedBy(g: MultiGraph, centre: NodeKey): set<NodeKey> {
    Hop(g, {centre}, RATED)
  }

  /**
   * The node set of the diagram: the centre, its rated successors, and the
   * `belongs_to` successors of those.
   */
  function Neighbourhood(g: MultiGraph, centre: NodeKey): set<NodeKey> {
    {centre} + RatedBy(g, centre) + Hop(g, RatedBy(g, centre), BELONGS_TO)
  }

  lemma HopSingle(g: MultiGraph, u: NodeKey, v: NodeKey, rel: string)
    ensures v in Hop(g, {u}, rel) <==> Edge(u, v, Some(rel)) in g.edges
  {
    if v in Hop(g, {u}, rel) {
      var e :| e in g.edges && e.src in {u} && e.relation == Some(rel) && e.dst == v;
      assert e == Edge(u, v, Some(rel));
    }
    if Edge(u, v, Some(rel)) in g.edges {
      var e := Edge(u, v, Some(rel));
      assert e.dst in Hop(g, {u}, rel);
    }
  }

  lemma HopUnion(g: MultiGraph, a: set<NodeKey>, b: set<NodeKey>, rel: string)
    ensures Hop(g, a + b, rel) == Hop(g, a, rel) + Hop(g, b, rel)
  {
    forall v | v in Hop(g, a + b, rel) ensures v in Hop(g, a, rel) + Hop(g, b, rel) {
      var e :| e in g.edges && e.src in a + b && e.relation == Some(rel) && e.dst == v;
      if e.src in a { assert e.dst in Hop(g, a, rel); } else { assert e.dst in Hop(g, b, rel); }
    }
    forall v | v in Hop(g, a, rel) + Hop(g, b, rel) ensures v in Hop(g, a + b, rel) {
      if v in Hop(g, a, rel) {
        var e :| e in g.edges && e.src in a && e.relation == Some(rel) && e.dst == v;
        assert e.dst in Hop(g, a + b, rel);
      } else {
        var e :| e in g.edges && e.src in b && e.relation == Some(rel) && e.dst == v;
        assert e.dst in Hop(g, a + b, rel);
      }
    }
  }

  /** Every node one labelled hop away from `u` is a successor of `u`. */
  lemma HopWithinSuccessors(g: MultiGraph, u: NodeKey, rel: string)
    ensures forall v :: v in Hop(g, {u}, rel) ==> v in Successors(g, u)
  {
    forall v | v in Hop(g, {u}, rel) ensures HasEdge(g.edges, u, v) {
      HopSingle(g, u, v, rel);
      assert Edge(u, v, Some(rel)).src == u;
    }
  }

  /**
   * The inner loop of the source: add to `sub` each successor of `m` with
   * some parallel edge from `m` labelled `belongs_to`.
   */
  method AddGenres(g: MultiGraph, m: NodeKey, sub: set<NodeKey>) returns (sub': set<NodeKey>)
    ensures sub' == sub + Hop(g, {m}, BELONGS_TO)
  {
    sub' := sub;
    var seconds := Successors(g, m);
    for j := 0 to |seconds|
      invariant sub' == sub + (set x | x in seconds[..j] && x in Hop(g, {m}, BELONGS_TO))
    {
      var x := seconds[j];
      AnyLabelledBetween(g, m, x, BELONGS_TO);
      HopSingle(g, m, x, BELONGS_TO);
      if AnyLabelled(ParallelLabels(g.edges, m, x), BELONGS_TO) {
        sub' := sub' + {x};
      }
      assert seconds[..j + 1] == seconds[..j] + [x];
    }
    assert seconds[..|seconds|] == seconds;
    HopWithinSuccessors(g, m, BELONGS_TO);
  }

  /**
   * The outer loop of the source: start from the centre; for each successor
   * `m` of the centre with some parallel edge labelled `rated`, add `m` and
   * then, through `AddGenres`, the nodes `m` belongs to.
   */
  method ProjectNodes(g: MultiGraph, centre: NodeKey) returns (sub: set<NodeKey>)
    ensures centre in sub
    ensures sub == Neighbourhood(g, centre)
  {
    sub := {centre};
    ghost var rated: set<NodeKey> := {};
    var firsts := Successors(g, centre);
    for i := 0 to |firsts|
      invariant rated == set m | m in firsts[..i] && m in RatedBy(g, centre)
      invariant sub == {centre} + rated + Hop(g, rated, BELONGS_TO)
    {
      var m := firsts[i];
      AnyLabelledBetween(g, centre, m, RATED);
      HopSingle(g, centre, m, RATED);
      if AnyLabelled(ParallelLabels(g.edges, centre, m), RATED) {
        sub := sub + {m};
        sub := AddGenres(g, m, sub);
        HopUnion(g, rated, {m}, BELONGS_TO);
        rated := rated + {m};
      }
      assert firsts[..i + 1] == firsts[..i] + [m];
    }
    assert firsts[..|firsts|] == firsts;
    HopWithinSuccessors(g, centre, RATED);
  }

  /**
   * Membership in the neighbourhood stated on raw edges: a node is in it iff
   * it is the centre, or a `rated` edge leads to it from the centre, or a
   * `belongs_to` edge leads to it from a node the centre rated. A node
   * reached only over other labels, or over unlabelled edges, is not.
   */
  lemma {:induction false} NeighbourhoodMembers(g: MultiGraph, centre: NodeKey, x: NodeKey)
    ensures x in Neighbourhood(g, centre) <==>
            x == centre
            || Edge(centre, x, Some(RATED)) in g.edges
            || exists m :: Edge(centre, m, Some(RATED)) in g.edges && Edge(m, x, Some(BELONGS_TO)) in g.edges
  {
    HopSingle(g, centre, x, RATED);
    var rated := RatedBy(g, centre);
    if x in Hop(g, rated, BELONGS_TO) {
      var e :| e in g.edges && e.src in rated && e.relation == Some(BELONGS_TO) && e.dst == x;
      HopSingle(g, centre, e.src, RATED);
      assert e == Edge(e.src, x, Some(BELONGS_TO));
    }
    if exists m :: Edge(centre, m, Some(RATED)) in g.edges && Edge(m, x, Some(BELONGS_TO)) in g.edges {
      var m :| Edge(centre, m, Some(RATED)) in g.edges && Edge(m, x, Some(BELONGS_TO)) in g.edges;
      HopSingle(g, centre, m, RATED);
      var e := Edge(m, x, Some(BELONGS_TO));
      assert e.dst in Hop(g, rated, BELONGS_TO);
    }
  }

  /** In a well-formed graph, the neighbourhood of a node consists of nodes of the graph. */
  lemma {:induction false} NeighbourhoodWithinGraph(g: MultiGraph, centre: NodeKey)
    requires WellFormed(g)
    requires centre in g.nodes
    ensures forall x :: x in Neighbourhood(g, centre) ==> x in g.nodes
  {
    forall x | x in Neighbourhood(g, centre) ensures x in g.nodes {
      NeighbourhoodMembers(g, centre, x);
      if x != centre && Edge(centre, x, Some(RATED)) !in g.edges {
        var m :| Edge(centre, m, Some(RATED)) in g.edges && Edge(m, x, Some(BELONGS_TO)) in g.edges;
        assert Edge(m, x, Some(BELONGS_TO)).dst == x;
      } else if x != centre {
        assert Edge(centre, x, Some(RATED)).dst == x;
      }
    }
  }

  /** `filter` in the order of `s`: the elements of `s` that are in `keep`. */
  function KeepNodes(s: seq<NodeKey>, keep: set<NodeKey>): (r: seq<NodeKey>)
    ensures forall x :: x in r <==> x in s && x in keep
    ensures Distinct(s) ==> Distinct(r)
    ensures |r| <= |s|
  {
    if s == [] then []
    else
      var rest := KeepNodes(s[1..], keep);
      assert forall x :: x in s <==> x == s[0] || x in s[1..];
      (if s[0] in keep then [s[0]] else []) + rest
  }

  /**
   * The edges of `es` whose two endpoints are both in `keep`, whatever their
   * label, each with the multiplicity it has in `es`.
   */
  function KeepEdges(es: seq<Edge>, keep: set<NodeKey>): (r: seq<Edge>)
    ensures forall e :: multiset(r)[e] == if e.src in keep && e.dst in keep then multiset(es)[e] else 0
  {
    if es == [] then []
    else
      assert es == [es[0]] + es[1..];
      (if es[0].src in keep && es[0].dst in keep then [es[0]] else []) + KeepEdges(es[1..], keep)
  }

  /** `G.subgraph(keep)`: the nodes of `g` in `keep` and the edges of `g` between them. */
  function Induced(g: MultiGraph, keep: set<NodeKey>): MultiGraph {
    MultiGraph(KeepNodes(g.nodes, keep), KeepEdges(g.edges, keep))
  }

  /**
   * The induced subgraph of a well-formed graph is well-formed: its nodes are
   * the nodes of `g` in `keep`, and each of its edges joins two of them, so
   * the diagram never draws an edge to a node it does not show.
   */
  lemma {:induction false} InducedWellFormed(g: MultiGraph, keep: set<NodeKey>)
    requires WellFormed(g)
    ensures WellFormed(Induced(g, keep))
    ensures forall x :: x in Induced(g, keep).nodes <==> x in g.nodes && x in keep
  {
    var h := Induced(g, keep);
    forall e | e in h.edges ensures e.src in h.nodes && e.dst in h.nodes {
      assert multiset(h.edges)[e] > 0;
      assert e in g.edges;
    }
  }

  /**
   * The subgraph drawn for a well-formed graph whose centre is a node of it:
   * exactly the nodes of the neighbourhood, and exactly the edges of the full
   * graph (labelled `rated`, `belongs_to`, otherwise or not at all) whose two
   * endpoints are in the neighbourhood.
   */
  lemma {:induction false} ProjectedSubgraph(g: MultiGraph, centre: NodeKey)
    requires WellFormed(g)
    requires centre in g.nodes
    ensures var h := Induced(g, Neighbourhood(g, centre));
            && WellFormed(h)
            && (forall x :: x in h.nodes <==> x in Neighbourhood(g, centre))
            && (forall e :: e in h.edges <==> e in g.edges && e.src in Neighbourhood(g, centre) && e.dst in Neighbourhood(g, centre))
  {
    var n := Neighbourhood(g, centre);
    NeighbourhoodWithinGraph(g, centre);
    InducedWellFormed(g, n);
    var h := Induced(g, n);
    forall e ensures e in h.edges <==> e in g.edges && e.src in n && e.dst in n {
      assert multiset(h.edges)[e] == if e.src in n && e.dst in n then multiset(g.edges)[e] else 0;
    }
  }

  /** A user who rated one movie of one genre, plus an unlabelled user-genre edge. */
  function ChainGraph(): MultiGraph {
    MultiGraph(["User_1", "Movie_X", "Genre_Y"],
               [Edge("User_1", "Movie_X", Some(RATED)),
                Edge("Movie_X", "Genre_Y", Some(BELONGS_TO)),
                Edge("User_1", "Genre_Y", None)])
  }

  /** `User_1` rated `Movie_X`, which belongs to `Genre_Y`: all three nodes are drawn. */
  lemma {:induction false} RatedChainNodes()
    ensures SelectCentre(ChainGraph()) == Success("User_1")
    ensures Neighbourhood(ChainGraph(), "User_1") == {"User_1", "Movie_X", "Genre_Y"}
  {
    var g := ChainGraph();
    HopSingle(g, "User_1", "Movie_X", RATED);
    assert RatedBy(g, "User_1") == {"Movie_X"} by {
      forall x | x in RatedBy(g, "User_1") ensures x == "Movie_X" {
        HopSingle(g, "User_1", x, RATED);
      }
    }
    HopSingle(g, "Movie_X", "Genre_Y", BELONGS_TO);
    assert Hop(g, {"Movie_X"}, BELONGS_TO) == {"Genre_Y"} by {
      forall x | x in Hop(g, {"Movie_X"}, BELONGS_TO) ensures x == "Genre_Y" {
        HopSingle(g, "Movie_X", x, BELONGS_TO);
      }
    }
  }

  /** In the same graph all three edges are drawn, the unlabelled one included. */
  lemma {:induction false} RatedChainEdges()
    ensures Induced(ChainGraph(), Neighbourhood(ChainGraph(), "User_1")).edges == ChainGraph().edges
  {
    var g := ChainGraph();
    RatedChainNodes();
    var n := Neighbourhood(g, "User_1");
    assert KeepEdges(g.edges[3..], n) == [];
    assert g.edges[2..] == [g.edges[2]] + g.edges[3..];
    assert KeepEdges(g.edges[2..], n) == [g.edges[2]];
    assert g.edges[1..] == [g.edges[1]] + g.edges[2..];
    assert KeepEdges(g.edges[1..], n) == [g.edges[1], g.edges[2]];
  }

  /**
   * A node the centre reaches only over a `watched` edge stays out of the
   * neighbourhood, and so does everything beyond it.
   */
  lemma {:induction false} WrongLabelScenario()
    ensures var g := MultiGraph(["User_1", "Movie_Z", "Genre_Y"],
                                [Edge("User_1", "Movie_Z", Some("watched")),
                                 Edge("Movie_Z", "Genre_Y", Some(BELONGS_TO))]);
            Neighbourhood(g, "User_1") == {"User_1"}
  {
    var g := MultiGraph(["User_1", "Movie_Z", "Genre_Y"],
                        [Edge("User_1", "Movie_Z", Some("watched")),
                         Edge("Movie_Z", "Genre_Y", Some(BELONGS_TO))]);
    forall x | x in RatedBy(g, "User_1") ensures false {
      HopSingle(g, "User_1", x, RATED);
    }
    assert RatedBy(g, "User_1") == {};
  }
}
