# Hybrid movie recommender dashboard: knowledge-graph neighbourhood model

The dashboard displays results that were computed beforehand. It has two tabs with logic:

- The "Recommendations" tab shows a ranked list of recommended movies.
- The "Knowledge Graph" tab draws a small part of a directed, labelled multigraph whose nodes are users, movies and genres.

This Dafny project models the logic of `app.py`:

- **Centre selection.** The centre is `User_1` if the graph has that node. Otherwise it is the first node in the graph's node order. An empty graph has no first node, so it fails with `EmptyGraph`.
- **Two-hop projection.** The node set starts with the centre. It then gains every successor the centre reaches over a `rated` edge, and every successor those nodes reach over a `belongs_to` edge. The source builds this set with two nested loops over successors, and the model does the same (`Projection.ProjectNodes`, `Projection.AddGenres`). Both loops are proved against the set-level definition `Projection.Neighbourhood`.
- **Induced subgraph.** This is the full graph restricted to the projected nodes. It keeps every edge between two projected nodes, whatever its label.
- **Display.** Each node gets a category with precedence User > Movie > Genre, plus a colour, a title and a label cut to 25 characters. Each edge is shown with its label, or with `''` when it has none.
- **Recommendations list.** Items are numbered from 1. A movie with no description gets a placeholder. Only the first item carries the explanation. An empty list shows a warning instead of items.

The graph is a value: `MultiGraph(nodes, edges)`.

- `nodes` is the node keys in the graph's node order.
- `edges` holds one `Edge(src, dst, relation)` per parallel edge.
- `relation` is `None` for an edge without a `label` attribute. Such an edge never matches `rated` or `belongs_to`.
- `G.successors(u)` is modelled as the distinct targets of the edges that leave `u`.
- `G[u][v].values()` is modelled as the labels of the parallel `u`→`v` edges.

Modules:

- `Wrappers`: Option and Result.
- `KnowledgeGraph`: the graph, successors and parallel labels.
- `Projection`: centre selection, the projection loops and the induced subgraph.
- `Display`: classification, labels, and the node and edge render loops.
- `Dashboard`: the knowledge-graph tab as a whole.
- `Recommendations`: the recommendations tab.

## Model

| member | source | states |
|---|---|---|
| KnowledgeGraph.Successors | app.py:71 | the successors of `u` are exactly the nodes that some edge from `u` reaches (any label), each listed once |
| KnowledgeGraph.ParallelLabels | app.py:72 | a label occurs among the parallel `u`→`v` edges iff the graph has an edge `u`→`v` with that label |
| KnowledgeGraph.AnyLabelled | app.py:72 | the `any(...)` test holds iff some parallel edge carries exactly the wanted label; a missing label never matches |
| Projection.SelectCentre | app.py:65-67 | fails exactly on the empty graph; otherwise returns a node of the graph: `User_1` when present, else the first node in node order |
| Projection.AddGenres | app.py:74-76 | the inner loop adds to the set exactly the nodes reached from `m` over a `belongs_to` edge |
| Projection.ProjectNodes | app.py:70-76 | the nested loops yield exactly the centre plus its `rated` successors plus their `belongs_to` successors; the centre is always included |
| Projection.NeighbourhoodMembers | app.py:70-76 | a node is projected iff it is the centre, or has a `rated` edge from the centre, or has a `belongs_to` edge from a node with a `rated` edge from the centre; nodes reached only by other or missing labels, or more than two hops away, are excluded |
| Projection.NeighbourhoodWithinGraph | app.py:70-76 | in a well-formed graph, every projected node is a node of the graph |
| Projection.KeepNodes | app.py:78 | the subgraph's nodes are exactly the graph's nodes in the kept set, without repeats |
| Projection.KeepEdges | app.py:78 | the subgraph keeps every edge whose two endpoints are kept, with its multiplicity, whatever its label, and drops every other edge |
| Projection.InducedWellFormed | app.py:78 | the induced subgraph of a well-formed graph is well-formed: every edge it keeps joins two nodes it keeps |
| Projection.ProjectedSubgraph | app.py:70-78 | the drawn subgraph has exactly the neighbourhood's nodes and exactly the full graph's edges between them |
| Projection.RatedChainNodes | app.py:65-76 | in a graph where `User_1` rated `Movie_X` and `Movie_X` belongs_to `Genre_Y`, the centre is `User_1` and exactly those three nodes are projected |
| Projection.RatedChainEdges | app.py:78 | in that graph every edge is kept, the unlabelled `User_1`→`Genre_Y` edge included |
| Projection.WrongLabelScenario | app.py:71-73 | a movie reached only over a `watched` edge is excluded, and so is its genre |
| Display.Classify | app.py:92-100 | classification is total, with precedence User (`User_` prefix) > Movie (in the movie set) > Genre; each category holds exactly under its condition |
| Display.CategoriesDistinguishable | app.py:92-100 | different categories get different colours and different titles |
| Display.DisplayLabel | app.py:101 | a key of at most 25 characters is shown unchanged; a longer key is shown as its first 25 characters plus `...`, 28 characters in all |
| Display.EdgeText | app.py:106 | an edge shows its label, or `''` when it has none |
| Display.RenderNodes | app.py:91-102 | the node loop yields one widget node per subgraph node, in order, with that node's label, colour and category title |
| Display.RenderEdges | app.py:105-107 | the edge loop yields one widget edge per subgraph edge, in order, with the edge's label text |
| Dashboard.KnowledgeGraphTab | app.py:59-117 | fails exactly on an empty graph; otherwise it draws the induced subgraph of the selected centre's neighbourhood; for a well-formed graph every neighbourhood node is drawn once, every drawn edge joins drawn nodes, and every graph edge between drawn nodes is drawn |
| Recommendations.Describe | app.py:50 | a movie's description is the mapping's value when the movie is a key, else `"No description available."` |
| Recommendations.RenderRecommendations | app.py:42-54 | warning iff the list is empty; otherwise one item per movie, in list order, ranked 1..n, each with its description, and only rank 1 explained |

## Left out

- Loading the pickled recommendation, evaluation, graph and movie-key files, and the framework's resource cache (app.py:13-18, 25, 61-62). This is file I/O. The model takes the loaded values as parameters. A failed load is not modelled.
- Page setup, sidebar, tabs, expanders, the static "How It Works" text, the image, and the `:.3f` formatting of the evaluation scores (app.py:21-36, 39-40, 56-57, 119-131). These are presentation and floating-point display only.
- The expander heading text `**{i}. {movie}**` and the explanation's wording. The model records each item's rank, movie and whether it is explained.
- The widget's size, physics and layout options, the temporary HTML file, and embedding the page (app.py:81-88, 110-114). These belong to the rendering library and to I/O. The widget's input is modelled as the `VisNode`/`VisEdge` sequences.
- The text of the error message shown when the tab fails (app.py:116-118). The model returns `Failure(EmptyGraph)`. The source catches every exception there, but only the empty-graph `IndexError` can arise from the modelled logic.
- Node, successor and edge iteration order in the graph library. `Successors` lists each target once, in first-edge order. The subgraph lists nodes and edges in the full graph's order. The library may iterate a subgraph in another order, which changes only the drawing order.
- The fallback centre follows the code. Graph iteration order need not be stable across reloads; the code takes the first node in that order, and the model does the same.
- Unused imports (numpy, pandas, cosine similarity). No logic uses them.
