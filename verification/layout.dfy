/**
 * The auto-layout wrapper around dagre. The layered layout itself is an
 * oracle: given the graph the wrapper builds, it returns a centre per vertex
 * id. What is modelled is the wrapper's own logic: the graph configuration,
 * the size each node registers, the centre-to-top-left translation and the
 * handle sides chosen from the direction.
 */
module Layout {
  import opened Wrappers
  import opened Types
  import opened Flow
  import opened Collections

  datatype Size = Size(width: real, height: real)

  /** The graph options handed to dagre. */
  datatype GraphConfig = GraphConfig(rankdir: string, ranksep: int, nodesep: int)

  /** The dagre graph as the wrapper fills it: options, sized vertices, edges. */
  datatype Graph = Graph(config: GraphConfig, vertices: map<string, Size>, edges: seq<(string, string)>)

  /** The layered layout: the centre dagre assigns to each vertex id. */
  type Dagre = Graph -> (string -> Point)

  const FallbackWidth: real := 172.0
  const FallbackHeight: real := 50.0
  const RankSep: int := 100
  const NodeSep: int := 80

  /** A JavaScript number used as a condition: absent and zero are falsy. */
  predicate Truthy(o: Option<real>) {
    o.Some? && o.value != 0.0
  }

  function MeasuredWidth<D>(n: FlowNode<D>): Option<real> {
    if n.measured.Some? then n.measured.value.width else None
  }

  function MeasuredHeight<D>(n: FlowNode<D>): Option<real> {
    if n.measured.Some? then n.measured.value.height else None
  }

  /**
   * The size a node registers: measured width, else the payload's width,
   * else 172; measured height, else 50. `dataWidth` reads the payload's
   * `width` field.
   */
  function NodeSize<D>(n: FlowNode<D>, dataWidth: D -> Option<real>): (s: Size)
    ensures Truthy(MeasuredWidth(n)) ==> s.width == MeasuredWidth(n).value
    ensures !Truthy(MeasuredWidth(n)) && Truthy(dataWidth(n.data)) ==> s.width == dataWidth(n.data).value
    ensures !Truthy(MeasuredWidth(n)) && !Truthy(dataWidth(n.data)) ==> s.width == FallbackWidth
    ensures Truthy(MeasuredHeight(n)) ==> s.height == MeasuredHeight(n).value
    ensures !Truthy(MeasuredHeight(n)) ==> s.height == FallbackHeight
  {
    var mw := MeasuredWidth(n);
    var dw := dataWidth(n.data);
    var mh := MeasuredHeight(n);
    Size(if Truthy(mw) then mw.value else if Truthy(dw) then dw.value else FallbackWidth,
         if Truthy(mh) then mh.value else FallbackHeight)
  }

  /** The node's own top-level `width` and `height` play no part in its size. */
  lemma SizeIgnoresOwnDimensions<D>(n: FlowNode<D>, dataWidth: D -> Option<real>, w: Option<real>, h: Option<real>)
    ensures NodeSize(n.(width := w, height := h), dataWidth) == NodeSize(n, dataWidth)
  {
  }

  function Ids<D>(nodes: seq<FlowNode<D>>): (ids: seq<string>)
    ensures |ids| == |nodes| && forall i :: 0 <= i < |nodes| ==> ids[i] == nodes[i].id
  {
    seq(|nodes|, i requires 0 <= i < |nodes| => nodes[i].id)
  }

  /**
   * The graph the wrapper hands to dagre: the fixed spacing, one vertex per
   * distinct id sized by the LAST node carrying that id, and every edge.
   */
  function BuildGraph<D>(nodes: seq<FlowNode<D>>, edges: seq<FlowEdge>, direction: string, dataWidth: D -> Option<real>): (g: Graph)
    ensures g.config == GraphConfig(direction, RankSep, NodeSep)
    ensures forall i :: 0 <= i < |nodes| ==> nodes[i].id in g.vertices
    ensures forall k :: k in g.vertices ==> exists i :: 0 <= i < |nodes| && nodes[i].id == k
    ensures forall i :: 0 <= i < |nodes| && IsLast(Ids(nodes), i) ==> g.vertices[nodes[i].id] == NodeSize(nodes[i], dataWidth)
    ensures |g.edges| == |edges| && forall i :: 0 <= i < |edges| ==> g.edges[i] == (edges[i].source, edges[i].target)
  {
    var ids := Ids(nodes);
    var sizes := seq(|nodes|, i requires 0 <= i < |nodes| => NodeSize(nodes[i], dataWidth));
    var vertices := LastWins(ids, sizes);
    KeyedByIds(nodes, vertices);
    Graph(GraphConfig(direction, RankSep, NodeSep), vertices,
          seq(|edges|, i requires 0 <= i < |edges| => (edges[i].source, edges[i].target)))
  }

  /** A map keyed by exactly the node ids holds every node's id and nothing else. */
  lemma KeyedByIds<D, V>(nodes: seq<FlowNode<D>>, m: map<string, V>)
    requires m.Keys == set k | k in Ids(nodes)
    ensures forall i :: 0 <= i < |nodes| ==> nodes[i].id in m
    ensures forall k :: k in m ==> exists i :: 0 <= i < |nodes| && nodes[i].id == k
  {
    var ids := Ids(nodes);
    forall k | k in m ensures exists i :: 0 <= i < |nodes| && nodes[i].id == k {
      assert k in ids;
    }
    forall i | 0 <= i < |nodes| ensures nodes[i].id in m {
      assert ids[i] in ids;
    }
  }

  /** The handle sides for a direction, as (target side, source side). */
  function HandleSides(direction: string): (sides: (Side, Side))
    ensures direction == "LR" ==> sides == (Left, Right)
    ensures direction != "LR" ==> sides == (Top, Bottom)
  {
    if direction == "LR" then (Left, Right) else (Top, Bottom)
  }

  function Opposite(s: Side): Side {
    match s
    case Top => Bottom
    case Bottom => Top
    case Left => Right
    case Right => Left
  }

  /** Whatever the direction, edges leave from the side opposite the one they enter. */
  lemma SidesAreOpposite(direction: string)
    ensures Opposite(HandleSides(direction).0) == HandleSides(direction).1
  {
  }

  /** `a` is `b` with only its position and handle sides replaced. */
  ghost predicate SameExceptPlacement<D>(a: FlowNode<D>, b: FlowNode<D>) {
    a.(position := b.position, sourcePosition := b.sourcePosition, targetPosition := b.targetPosition) == b
  }

  /** The top-left corner of a box of size `s` centred on `c`. */
  function TopLeft(c: Point, s: Size): Point {
    Point(c.x - s.width / 2.0, c.y - s.height / 2.0)
  }

  /** The laid-out node for one input node. */
  function Place<D>(n: FlowNode<D>, g: Graph, centre: string -> Point, direction: string): FlowNode<D>
    requires n.id in g.vertices
  {
    var sides := HandleSides(direction);
    n.(targetPosition := Some(sides.0), sourcePosition := Some(sides.1),
       position := TopLeft(centre(n.id), g.vertices[n.id]))
  }

  /**
   * `getLayoutedElements`: one output node per input node, in order, each
   * keeping every field but its placement; the placement is dagre's centre
   * for its id minus half the size registered for that id; the handle sides
   * follow the direction; the edges come back unchanged.
   */
  function GetLayoutedElements<D>(nodes: seq<FlowNode<D>>, edges: seq<FlowEdge>, direction: string,
                                  dataWidth: D -> Option<real>, dagre: Dagre): (r: (seq<FlowNode<D>>, seq<FlowEdge>))
    ensures |r.0| == |nodes| && r.1 == edges
    ensures forall i :: 0 <= i < |nodes| ==> SameExceptPlacement(r.0[i], nodes[i])
    ensures forall i :: 0 <= i < |nodes| ==>
      r.0[i].targetPosition == Some(HandleSides(direction).0) && r.0[i].sourcePosition == Some(HandleSides(direction).1)
    ensures var g := BuildGraph(nodes, edges, direction, dataWidth);
      forall i :: 0 <= i < |nodes| ==> nodes[i].id in g.vertices && r.0[i].position == TopLeft(dagre(g)(nodes[i].id), g.vertices[nodes[i].id])
  {
    var g := BuildGraph(nodes, edges, direction, dataWidth);
    var centre := dagre(g);
    var placed := seq(|nodes|, i requires 0 <= i < |nodes| => Place(nodes[i], g, centre, direction));
    assert forall i :: 0 <= i < |nodes| ==> Placed(nodes[i], g, centre, direction, placed[i]) by {
      forall i | 0 <= i < |nodes| ensures Placed(nodes[i], g, centre, direction, placed[i]) {
        PlaceIsPlaced(nodes[i], g, centre, direction);
      }
    }
    (placed, edges)
  }

  /** `a` is `n` laid out: same but for its placement, sides from the direction, top-left from the centre. */
  ghost predicate Placed<D>(n: FlowNode<D>, g: Graph, centre: string -> Point, direction: string, a: FlowNode<D>)
    requires n.id in g.vertices
  {
    && SameExceptPlacement(a, n)
    && a.targetPosition == Some(HandleSides(direction).0) && a.sourcePosition == Some(HandleSides(direction).1)
    && a.position == TopLeft(centre(n.id), g.vertices[n.id])
  }

  lemma PlaceIsPlaced<D>(n: FlowNode<D>, g: Graph, centre: string -> Point, direction: string)
    requires n.id in g.vertices
    ensures Placed(n, g, centre, direction, Place(n, g, centre, direction))
  {
  }

  /** With distinct ids every node is translated by half of its OWN size. */
  lemma DistinctIdsUseOwnSize<D>(nodes: seq<FlowNode<D>>, edges: seq<FlowEdge>, direction: string,
                                 dataWidth: D -> Option<real>, dagre: Dagre, i: int)
    requires forall a, b :: 0 <= a < b < |nodes| ==> nodes[a].id != nodes[b].id
    requires 0 <= i < |nodes|
    ensures var g := BuildGraph(nodes, edges, direction, dataWidth);
      GetLayoutedElements(nodes, edges, direction, dataWidth, dagre).0[i].position
        == TopLeft(dagre(g)(nodes[i].id), NodeSize(nodes[i], dataWidth))
  {
    assert IsLast(Ids(nodes), i);
  }

  /** Two nodes sharing an id are placed at the same point. */
  lemma SharedIdSharesPosition<D>(nodes: seq<FlowNode<D>>, edges: seq<FlowEdge>, direction: string,
                                  dataWidth: D -> Option<real>, dagre: Dagre, i: int, j: int)
    requires 0 <= i < |nodes| && 0 <= j < |nodes| && nodes[i].id == nodes[j].id
    ensures var r := GetLayoutedElements(nodes, edges, direction, dataWidth, dagre).0;
      r[i].position == r[j].position
  {
  }
}
