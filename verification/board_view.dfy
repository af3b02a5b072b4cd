/**
 * The board canvas: the unlock state a board opens with, the mapping
 * between stored boards and canvas nodes/edges in both directions (load and
 * auto-save), splitting an edge with a new node, recolouring the selection
 * and saving the share password.
 */
module BoardView {
  import opened Wrappers
  import opened Types
  import opened Flow
  import opened Collections
  import BoardStore

  /** The board the route's id names: the first one listed under it. */
  function OpenBoard(boards: seq<Board>, boardId: Option<string>): (r: Option<Board>)
    ensures r.Some? <==> boardId.Some? && exists i :: 0 <= i < |boards| && boards[i].id == boardId.value
    ensures r.Some? ==> r.value in boards && r.value.id == boardId.value
    ensures boardId.Some? ==> forall k ::
      0 <= k < |boards| && boards[k].id == boardId.value && (forall j :: 0 <= j < k ==> boards[j].id != boardId.value) ==>
      r == Some(boards[k])
  {
    if boardId.None? then None
    else
      var r := FindFirst(boards, BoardStore.HasId(boardId.value));
      assert r.Some? ==> r.value in boards;
      BoardStore.FirstUnderId(boards, boardId.value);
      r
  }

  /** A board opens unlocked iff it has no password, or an empty one. */
  function InitiallyUnlocked(b: Board): (r: bool)
    ensures r <==> b.password.None? || b.password == Some("")
  {
    !(b.password.Some? && b.password.value != "")
  }

  /** The share dialog's password field starts as the stored password, or empty. */
  function InitialSharePassword(b: Board): (r: string)
    ensures b.password.Some? ==> r == b.password.value
    ensures b.password.None? ==> r == ""
  {
    if b.password.Some? && b.password.value != "" then b.password.value else ""
  }

  /** A stored node on the canvas: same id, kind and position; detailed nodes get a 400x300 box. */
  function LoadNode(n: AppNode): (f: FlowNode<AppNode>)
    ensures f.id == n.id && f.kind == Some(n.kind) && f.position == n.position && f.data == n
    ensures f.style.Some? <==> n.kind == Detailed
    ensures f.style.Some? ==> f.style.value == Box(400, 300)
  {
    CanvasNode(n.id, n.kind, n.position, n, if n.kind == Detailed then Some(Box(400, 300)) else None)
  }

  /** A stored connection on the canvas; the label is not carried over. */
  function LoadEdge(c: AppConnection): (e: FlowEdge)
    ensures e.id == c.id && e.source == c.source && e.target == c.target
    ensures e.sourceHandle == Some(c.sourceHandle) && e.targetHandle == Some(c.targetHandle)
    ensures e.style == c.style
  {
    FlowEdge(c.id, c.source, c.target, Some(c.sourceHandle), Some(c.targetHandle), c.style)
  }

  /** The edge menu opened by clicking an edge. */
  datatype EdgeMenu = EdgeMenu(id: string, x: real, y: real)

  datatype Canvas = Canvas(nodes: seq<FlowNode<AppNode>>, edges: seq<FlowEdge>, edgeMenu: Option<EdgeMenu>)

  /**
   * The sync from the store: the canvas takes one node per stored node and
   * one edge per connection, in order; the edge menu is left as it was.
   */
  function Load(current: Canvas, b: Board): (c: Canvas)
    ensures |c.nodes| == |b.nodes| && |c.edges| == |b.connections| && c.edgeMenu == current.edgeMenu
    ensures forall i :: 0 <= i < |b.nodes| ==> c.nodes[i] == LoadNode(b.nodes[i])
    ensures forall i :: 0 <= i < |b.connections| ==> c.edges[i] == LoadEdge(b.connections[i])
  {
    Canvas(seq(|b.nodes|, i requires 0 <= i < |b.nodes| => LoadNode(b.nodes[i])),
           seq(|b.connections|, i requires 0 <= i < |b.connections| => LoadEdge(b.connections[i])),
           current.edgeMenu)
  }

  /** Auto-save runs only with a non-empty board id and at least one node on the canvas. */
  predicate ShouldAutoSave(boardId: Option<string>, c: Canvas) {
    boardId.Some? && boardId.value != "" && |c.nodes| > 0
  }

  /** A canvas node saved back: its data, with the canvas id and position and a default border colour. */
  function SaveNode(f: FlowNode<AppNode>): (n: AppNode)
    ensures n.id == f.id && n.position == f.position
    ensures n.borderColor == (if f.data.borderColor != "" then f.data.borderColor else DefaultBorderColor)
    ensures n.borderColor != ""
    ensures n.(id := f.data.id, position := f.data.position, borderColor := f.data.borderColor) == f.data
  {
    f.data.(id := f.id, position := f.position,
            borderColor := if f.data.borderColor != "" then f.data.borderColor else DefaultBorderColor)
  }

  /** A canvas edge saved back: missing or empty handles become `top`, a missing style `bezier`, no label. */
  function SaveEdge(e: FlowEdge): (c: AppConnection)
    ensures c.id == e.id && c.source == e.source && c.target == e.target
    ensures c.sourceHandle == (if e.sourceHandle.Some? && e.sourceHandle.value != "" then e.sourceHandle.value else "top")
    ensures c.targetHandle == (if e.targetHandle.Some? && e.targetHandle.value != "" then e.targetHandle.value else "top")
    ensures c.style == Some(e.style.GetOr(Bezier))
    ensures c.labelText.None?
  {
    AppConnection(e.id, e.source,
                  if e.sourceHandle.Some? && e.sourceHandle.value != "" then e.sourceHandle.value else "top",
                  e.target,
                  if e.targetHandle.Some? && e.targetHandle.value != "" then e.targetHandle.value else "top",
                  None, Some(e.style.GetOr(Bezier)))
  }

  /** The partial the auto-save writes: the canvas nodes and edges, mapped back. */
  function SavedContent(c: Canvas): (p: BoardStore.BoardPatch)
    ensures p.nodes.Some? && |p.nodes.value| == |c.nodes|
    ensures forall i :: 0 <= i < |c.nodes| ==> p.nodes.value[i] == SaveNode(c.nodes[i])
    ensures p.connections.Some? && |p.connections.value| == |c.edges|
    ensures forall i :: 0 <= i < |c.edges| ==> p.connections.value[i] == SaveEdge(c.edges[i])
    ensures p.(nodes := None, connections := None) == BoardStore.EmptyPatch
  {
    BoardStore.EmptyPatch.(
      nodes := Some(seq(|c.nodes|, i requires 0 <= i < |c.nodes| => SaveNode(c.nodes[i]))),
      connections := Some(seq(|c.edges|, i requires 0 <= i < |c.edges| => SaveEdge(c.edges[i]))))
  }

  /** The debounced auto-save, once its timer fires: guarded, then one `updateBoard`. */
  function AutoSave(store: BoardStore.State, boardId: Option<string>, c: Canvas, now: string): (r: BoardStore.State)
    ensures !ShouldAutoSave(boardId, c) ==> r == store
    ensures ShouldAutoSave(boardId, c) ==> r == BoardStore.UpdateBoard(store, boardId.value, SavedContent(c), now)
  {
    if ShouldAutoSave(boardId, c) then BoardStore.UpdateBoard(store, boardId.value, SavedContent(c), now) else store
  }

  /** A stored connection survives a load and save unchanged iff the save has nothing to default or drop. */
  lemma EdgeRoundTrip(c: AppConnection)
    ensures SaveEdge(LoadEdge(c)) == c <==>
      c.sourceHandle != "" && c.targetHandle != "" && c.labelText.None? && c.style.Some?
  {
  }

  /** A stored node survives a load and save unchanged iff it has a border colour. */
  lemma NodeRoundTrip(n: AppNode)
    ensures SaveNode(LoadNode(n)) == n <==> n.borderColor != ""
  {
  }

  /** Loading a board and saving it at once writes back its own nodes, provided each has a border colour. */
  lemma SaveAfterLoad(current: Canvas, b: Board)
    requires forall i :: 0 <= i < |b.nodes| ==> b.nodes[i].borderColor != ""
    ensures SavedContent(Load(current, b)).nodes == Some(b.nodes)
  {
    var saved := SavedContent(Load(current, b)).nodes.value;
    forall i | 0 <= i < |b.nodes| ensures saved[i] == b.nodes[i] {
      NodeRoundTrip(b.nodes[i]);
    }
    assert saved == b.nodes;
  }

  /** The ids `uuidv4` supplies to an insertion: the new node's, then the two new edges'. */
  datatype InsertIds = InsertIds(node: string, first: string, second: string)

  /** The node inserted on an edge: the chosen kind at the midpoint, content "New <kind>". */
  function InsertedNode(kind: NodeType, id: string, mid: Point, now: Instant): (f: FlowNode<AppNode>)
    ensures f.id == id && f.data.id == id && f.kind == Some(kind) && f.data.kind == kind
    ensures f.position == mid && f.data.position == mid
    ensures f.data.content == "New " + NodeTypeName(kind) && f.data.borderColor == DefaultBorderColor
    ensures f.data.status.None? && f.data.dateTime.None? && f.data.createdAt == now && f.data.updatedAt == now
    ensures f.style.None? && !f.selected
  {
    var app := AppNode(id, kind, "New " + NodeTypeName(kind), mid, None, DefaultBorderColor, None, None, None, now, now);
    CanvasNode(id, kind, mid, app, None)
  }

  function Midpoint(a: Point, b: Point): Point {
    Point((a.x + b.x) / 2.0, (a.y + b.y) / 2.0)
  }

  /** `e => e.id === id`. */
  function EdgeIdIs(id: string): FlowEdge -> bool {
    (e: FlowEdge) => e.id == id
  }

  /** `n => n.id === id`. */
  function NodeIdIs(id: string): FlowNode<AppNode> -> bool {
    (n: FlowNode<AppNode>) => n.id == id
  }

  /** `e => e.id !== id`. */
  function OtherId(id: string): FlowEdge -> bool {
    (e: FlowEdge) => e.id != id
  }

  /** The edges once the clicked edge's id is split around a new node. */
  function SplitEdges(edges: seq<FlowEdge>, edge: FlowEdge, ids: InsertIds): (r: seq<FlowEdge>)
    ensures |r| == Count(edges, OtherId(edge.id)) + 2
    ensures forall e :: e in r[..|r| - 2] <==> e in edges && e.id != edge.id
    ensures r[..|r| - 2] == Filter(edges, OtherId(edge.id))
    ensures r[|r| - 2] == PlainEdge(ids.first, edge.source, ids.node)
    ensures r[|r| - 1] == PlainEdge(ids.second, ids.node, edge.target)
  {
    var kept := Filter(edges, OtherId(edge.id));
    var r := kept + [PlainEdge(ids.first, edge.source, ids.node), PlainEdge(ids.second, ids.node, edge.target)];
    CountIsFilterLength(edges, OtherId(edge.id));
    assert r[..|r| - 2] == kept;
    r
  }

  /**
   * `handleInsertNodeOnEdge`. Nothing happens unless the edge menu is open,
   * the clicked edge still exists and both of its end nodes exist. Otherwise
   * every edge under the clicked id is removed, one node of the chosen kind
   * is added at the midpoint of the two end nodes, it is joined to both ends
   * by two new edges, and the menu closes.
   */
  function InsertNodeOnEdge(c: Canvas, kind: NodeType, ids: InsertIds, now: Instant): (r: Canvas)
    ensures var edge := if c.edgeMenu.Some? then FindFirst(c.edges, EdgeIdIs(c.edgeMenu.value.id)) else None;
      var src := if edge.Some? then FindFirst(c.nodes, NodeIdIs(edge.value.source)) else None;
      var dst := if edge.Some? then FindFirst(c.nodes, NodeIdIs(edge.value.target)) else None;
      if src.None? || dst.None? then r == c
      else
        && r.edgeMenu.None?
        && r.nodes == c.nodes + [InsertedNode(kind, ids.node, Midpoint(src.value.position, dst.value.position), now)]
        && (forall e :: e in r.edges <==>
              (e in c.edges && e.id != c.edgeMenu.value.id)
              || e == PlainEdge(ids.first, edge.value.source, ids.node)
              || e == PlainEdge(ids.second, ids.node, edge.value.target))
        && |r.edges| >= 2
        && r.edges[..|r.edges| - 2] == Filter(c.edges, OtherId(c.edgeMenu.value.id))
        && r.edges[|r.edges| - 2..] == [PlainEdge(ids.first, edge.value.source, ids.node),
                                        PlainEdge(ids.second, ids.node, edge.value.target)]
  {
    if c.edgeMenu.None? then c
    else
      match FindFirst(c.edges, EdgeIdIs(c.edgeMenu.value.id))
      case None => c
      case Some(edge) =>
        var src := FindFirst(c.nodes, NodeIdIs(edge.source));
        var dst := FindFirst(c.nodes, NodeIdIs(edge.target));
        if src.None? || dst.None? then c
        else
          var mid := Midpoint(src.value.position, dst.value.position);
          Canvas(c.nodes + [InsertedNode(kind, ids.node, mid, now)], SplitEdges(c.edges, edge, ids), None)
  }

  /**
   * After a successful insertion the new node sits on a path from the
   * clicked edge's source to its target, and no edge under the clicked id
   * is left (the supplied edge ids being new). The clicked edge is the
   * first one listed under the menu's id.
   */
  lemma InsertionReroutes(c: Canvas, kind: NodeType, ids: InsertIds, now: Instant, k: int)
    requires c.edgeMenu.Some? && 0 <= k < |c.edges| && c.edges[k].id == c.edgeMenu.value.id
    requires forall j :: 0 <= j < k ==> c.edges[j].id != c.edgeMenu.value.id
    requires exists i :: 0 <= i < |c.nodes| && c.nodes[i].id == c.edges[k].source
    requires exists i :: 0 <= i < |c.nodes| && c.nodes[i].id == c.edges[k].target
    requires ids.first != c.edges[k].id && ids.second != c.edges[k].id
    ensures var r := InsertNodeOnEdge(c, kind, ids, now);
      && |r.nodes| == |c.nodes| + 1 && r.nodes[|c.nodes|].id == ids.node
      && PlainEdge(ids.first, c.edges[k].source, ids.node) in r.edges
      && PlainEdge(ids.second, ids.node, c.edges[k].target) in r.edges
      && (forall e :: e in r.edges ==> e.id != c.edges[k].id)
  {
    var edge := c.edges[k];
    FindFirstAt(c.edges, EdgeIdIs(c.edgeMenu.value.id), k);
    var src := FindFirst(c.nodes, NodeIdIs(edge.source));
    var dst := FindFirst(c.nodes, NodeIdIs(edge.target));
    assert src.Some? && dst.Some?;
    var mid := Midpoint(src.value.position, dst.value.position);
    assert InsertNodeOnEdge(c, kind, ids, now)
      == Canvas(c.nodes + [InsertedNode(kind, ids.node, mid, now)], SplitEdges(c.edges, edge, ids), None);
    SplitEdgesDropsEdge(c.edges, edge, ids);
  }

  /** The split keeps its two new edges and, their ids being new, nothing under the split edge's id. */
  lemma SplitEdgesDropsEdge(edges: seq<FlowEdge>, edge: FlowEdge, ids: InsertIds)
    requires ids.first != edge.id && ids.second != edge.id
    ensures PlainEdge(ids.first, edge.source, ids.node) in SplitEdges(edges, edge, ids)
    ensures PlainEdge(ids.second, ids.node, edge.target) in SplitEdges(edges, edge, ids)
    ensures forall e :: e in SplitEdges(edges, edge, ids) ==> e.id != edge.id
  {
    var kept := Filter(edges, OtherId(edge.id));
    assert SplitEdges(edges, edge, ids) == kept + [PlainEdge(ids.first, edge.source, ids.node), PlainEdge(ids.second, ids.node, edge.target)];
  }

  /** `updateSelectedNodeColor`: the border colour of every selected node, and nothing else, changes. */
  function RecolourSelected(nodes: seq<FlowNode<AppNode>>, color: string): (r: seq<FlowNode<AppNode>>)
    ensures |r| == |nodes|
    ensures forall i :: 0 <= i < |nodes| && !nodes[i].selected ==> r[i] == nodes[i]
    ensures forall i :: 0 <= i < |nodes| && nodes[i].selected ==>
      r[i].data.borderColor == color && r[i].(data := nodes[i].data) == nodes[i]
      && r[i].data.(borderColor := nodes[i].data.borderColor) == nodes[i].data
  {
    seq(|nodes|, i requires 0 <= i < |nodes| =>
      if nodes[i].selected then nodes[i].(data := nodes[i].data.(borderColor := color)) else nodes[i])
  }

  /** Recolouring twice with the same colour is recolouring once; the saved colour is the chosen one. */
  lemma RecolourThenSave(nodes: seq<FlowNode<AppNode>>, color: string, i: int)
    requires 0 <= i < |nodes| && nodes[i].selected && color != ""
    ensures RecolourSelected(RecolourSelected(nodes, color), color) == RecolourSelected(nodes, color)
    ensures SaveNode(RecolourSelected(nodes, color)[i]).borderColor == color
  {
    var once := RecolourSelected(nodes, color);
    assert RecolourSelected(once, color) == once;
  }

  /**
   * `handleUpdateSecurity`: with a non-empty board id, writes the typed
   * password verbatim through `updateBoard` and closes the dialog; without
   * one, nothing happens.
   */
  function UpdateSecurity(store: BoardStore.State, boardId: Option<string>, sharePassword: string, isShareOpen: bool, now: string)
    : (r: (BoardStore.State, bool))
    ensures boardId.None? || boardId == Some("") ==> r == (store, isShareOpen)
    ensures boardId.Some? && boardId.value != "" ==>
      && !r.1
      && r.0 == BoardStore.UpdateBoard(store, boardId.value, BoardStore.EmptyPatch.(password := Some(Some(sharePassword))), now)
  {
    if boardId.None? || boardId.value == "" then (store, isShareOpen)
    else (BoardStore.UpdateBoard(store, boardId.value, BoardStore.EmptyPatch.(password := Some(Some(sharePassword))), now), false)
  }

  /** Saving an empty share password unlocks the board at once and on every later load. */
  lemma EmptyPasswordUnlocks(store: BoardStore.State, boardId: string, isShareOpen: bool, now: string)
    requires boardId != ""
    ensures var s := UpdateSecurity(store, Some(boardId), "", isShareOpen, now).0;
      forall i :: 0 <= i < |s.boards| && s.boards[i].id == boardId ==> InitiallyUnlocked(s.boards[i])
  {
  }

  /** Saving a non-empty password locks the board at once and on every later load, and the dialog offers it back. */
  lemma PasswordLocks(store: BoardStore.State, boardId: string, pw: string, isShareOpen: bool, now: string)
    requires boardId != "" && pw != ""
    ensures var s := UpdateSecurity(store, Some(boardId), pw, isShareOpen, now).0;
      forall i :: 0 <= i < |s.boards| && s.boards[i].id == boardId ==>
        !InitiallyUnlocked(s.boards[i]) && InitialSharePassword(s.boards[i]) == pw
  {
  }
}
