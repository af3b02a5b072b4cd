/** The canvas library's node and edge records, as the source's code uses them. */
module Flow {
  import opened Wrappers
  import opened Types

  /** A handle side (the library's `Position`). */
  datatype Side = Top | Right | Bottom | Left

  /** The size the canvas measured after rendering, when it has. */
  datatype Measured = Measured(width: Option<real>, height: Option<real>)

  /** An inline width/height style. */
  datatype Box = Box(width: int, height: int)

  /**
   * A canvas node. `data` is the payload the node components read (`AppNode`
   * on the board canvas, an empty record in the importer); `kind` is the
   * library's `type`.
   */
  datatype FlowNode<D> = FlowNode(
    id: string,
    kind: Option<NodeType>,
    position: Point,
    data: D,
    style: Option<Box>,
    selected: bool,
    measured: Option<Measured>,
    width: Option<real>,
    height: Option<real>,
    sourcePosition: Option<Side>,
    targetPosition: Option<Side>)

  /** A canvas edge; `style` is the style carried in the edge's `data`. */
  datatype FlowEdge = FlowEdge(
    id: string,
    source: string,
    target: string,
    sourceHandle: Option<string>,
    targetHandle: Option<string>,
    style: Option<ConnectionStyle>)

  /** A node with only the fields the board canvas sets. */
  function CanvasNode(id: string, kind: NodeType, position: Point, data: AppNode, style: Option<Box>): FlowNode<AppNode> {
    FlowNode(id, Some(kind), position, data, style, false, None, None, None, None, None)
  }

  /** An edge with neither handles nor a style. */
  function PlainEdge(id: string, source: string, target: string): FlowEdge {
    FlowEdge(id, source, target, None, None, None)
  }
}
