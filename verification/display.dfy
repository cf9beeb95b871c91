/**
 * How the nodes and edges of the projected subgraph are handed to the
 * diagram widget: each node with a category, a colour and a shortened label,
 * each edge with the text of its relation label.
 */
module Display {
  import opened Wrappers
  import opened KnowledgeGraph

  /** The three kinds of node the diagram distinguishes. */
  datatype Category = User | Movie | Genre

  /** Keys of user nodes start with this prefix. */
  const USER_PREFIX: string := "User_"
  /** Labels longer than this many characters are shortened. */
  const MAX_LABEL: nat := 25
  /** Appended to a shortened label. */
  const ELLIPSIS: string := "..."

  /**
   * The category of a node key, checked in this order: the `User_` prefix
   * makes a user, membership in the movie keys a movie, anything else a genre.
   */
  function Classify(key: NodeKey, movies: set<NodeKey>): (c: Category)
    ensures c == User <==> USER_PREFIX <= key
    ensures c == Movie <==> !(USER_PREFIX <= key) && key in movies
    ensures c == Genre <==> !(USER_PREFIX <= key) && key !in movies
  {
    if USER_PREFIX <= key then User
    else if key in movies then Movie
    else Genre
  }

  /** The hover title of a node of category `c`. */
  function Title(c: Category): string {
    match c
    case User => "User"
    case Movie => "Movie"
    case Genre => "Genre"
  }

  /** The fill colour of a node of category `c`: orange, steel blue, lime green. */
  function Colour(c: Category): string {
    match c
    case User => "#FFA500"
    case Movie => "#4682B4"
    case Genre => "#32CD32"
  }

  /**
   * Distinct categories are drawn in distinct colours under distinct titles:
   * colour and hover title are the only way the diagram tells a user, a
   * movie and a genre apart, so each of them determines the category.
   */
  lemma CategoriesDistinguishable(c: Category, d: Category)
    requires c != d
    ensures Colour(c) != Colour(d) && Title(c) != Title(d)
  {
    match c
    case User => assert Colour(c)[1] == 'F' && Title(c)[0] == 'U';
    case Movie => assert Colour(c)[1] == '4' && Title(c)[0] == 'M';
    case Genre => assert Colour(c)[1] == '3' && Title(c)[0] == 'G';
  }

  /**
   * The label drawn for a node: the key itself when it has at most
   * `MAX_LABEL` characters, otherwise its first `MAX_LABEL` characters
   * followed by the ellipsis.
   */
  function DisplayLabel(key: NodeKey): (r: string)
    ensures |key| <= MAX_LABEL ==> r == key
    ensures |key| > MAX_LABEL ==> |r| == MAX_LABEL + |ELLIPSIS| && r[..MAX_LABEL] == key[..MAX_LABEL] && r[MAX_LABEL..] == ELLIPSIS
    ensures |r| <= MAX_LABEL + |ELLIPSIS|
  {
    if |key| > MAX_LABEL then key[..MAX_LABEL] + ELLIPSIS else key
  }

  /** The text of an edge: its label, or the empty string when it has none. */
  function EdgeText(relation: Option<string>): (r: string)
    ensures relation.Some? ==> r == relation.value
    ensures relation.None? ==> r == ""
  {
    match relation
    case Some(l) => l
    case None => ""
  }

  /** A node as the widget receives it. */
  datatype VisNode = VisNode(id: NodeKey, text: string, colour: string, title: string)

  /** An edge as the widget receives it; its label doubles as its hover title. */
  datatype VisEdge = VisEdge(from: NodeKey, to: NodeKey, text: string)

  /** The node loop of the source: one widget node per subgraph node, in order. */
  method RenderNodes(nodes: seq<NodeKey>, movies: set<NodeKey>) returns (vs: seq<VisNode>)
    ensures |vs| == |nodes|
    ensures forall k :: 0 <= k < |nodes| ==>
              var c := Classify(nodes[k], movies);
              vs[k] == VisNode(nodes[k], DisplayLabel(nodes[k]), Colour(c), Title(c))
  {
    vs := [];
    for i := 0 to |nodes|
      invariant |vs| == i
      invariant forall k :: 0 <= k < i ==>
                  var c := Classify(nodes[k], movies);
                  vs[k] == VisNode(nodes[k], DisplayLabel(nodes[k]), Colour(c), Title(c))
    {
      var node := nodes[i];
      var c := Classify(node, movies);
      var colour, title, text := Colour(c), Title(c), DisplayLabel(node);
      vs := vs + [VisNode(node, text, colour, title)];
    }
  }

  /** The edge loop of the source: one widget edge per subgraph edge, in order. */
  method RenderEdges(es: seq<Edge>) returns (ves: seq<VisEdge>)
    ensures |ves| == |es|
    ensures forall k :: 0 <= k < |es| ==> ves[k] == VisEdge(es[k].src, es[k].dst, EdgeText(es[k].relation))
  {
    ves := [];
    for i := 0 to |es|
      invariant |ves| == i
      invariant forall k :: 0 <= k < i ==> ves[k] == VisEdge(es[k].src, es[k].dst, EdgeText(es[k].relation))
    {
      var e := es[i];
      var text := EdgeText(e.relation);
      ves := ves + [VisEdge(e.src, e.dst, text)];
    }
  }
}
