/** The record shapes and closed enumerations every other module works on. */
module Types {
  import opened Wrappers

  /** The seven node kinds; `kind` stands for the source's `type` field. */
  datatype NodeType = Task | Note | Milestone | Decision | Detailed | Heading | Section

  datatype NodeStatus = Todo | InProgress | Complete

  datatype ConnectionStyle = Bezier | Straight | Orthogonal

  datatype SharedAccess = Viewer | Editor | Private

  /** A JavaScript `Date` value, as milliseconds since the epoch. */
  type Instant = int

  /** A canvas point; JavaScript numbers are modelled as exact reals. */
  datatype Point = Point(x: real, y: real)

  /**
   * A persisted node. `fontSize` is not declared on the source's interface
   * but is written by the importer and the auto-save and read by every node
   * component, so it is a field here.
   */
  datatype AppNode = AppNode(
    id: string,
    kind: NodeType,
    content: string,
    position: Point,
    width: Option<real>,
    borderColor: string,
    fontSize: Option<int>,
    dateTime: Option<Instant>,
    status: Option<NodeStatus>,
    createdAt: Instant,
    updatedAt: Instant)

  /** A persisted connection; handles are free-form handle ids (`labelText` is the source's `label`). */
  datatype AppConnection = AppConnection(
    id: string,
    source: string,
    sourceHandle: string,
    target: string,
    targetHandle: string,
    labelText: Option<string>,
    style: Option<ConnectionStyle>)

  /** A legend from colour string to label, plus the use-global flag. */
  datatype ColorGlossary = ColorGlossary(useGlobal: bool, colors: map<string, string>)

  datatype BoardSettings = BoardSettings(
    showGrid: bool,
    snapToGrid: bool,
    gridSize: int,
    showMinimap: bool,
    defaultNodeType: NodeType,
    connectionStyle: ConnectionStyle)

  /** A board; its timestamps are ISO strings, unlike the nodes' `Date`s. */
  datatype Board = Board(
    id: string,
    name: string,
    description: Option<string>,
    createdAt: string,
    updatedAt: string,
    starred: bool,
    password: Option<string>,
    sharedAccess: Option<SharedAccess>,
    nodes: seq<AppNode>,
    connections: seq<AppConnection>,
    colorGlossary: ColorGlossary,
    settings: BoardSettings)

  /** The string spelling of each node kind. */
  function NodeTypeName(t: NodeType): string {
    match t
    case Task => "task"
    case Note => "note"
    case Milestone => "milestone"
    case Decision => "decision"
    case Detailed => "detailed"
    case Heading => "heading"
    case Section => "section"
  }

  /** Reads a node kind back from its spelling; any other string is rejected. */
  function ParseNodeType(s: string): (r: Option<NodeType>)
    ensures r.Some? ==> NodeTypeName(r.value) == s
    ensures forall t :: NodeTypeName(t) == s ==> r == Some(t)
    ensures r.Some? <==> s in {"task", "note", "milestone", "decision", "detailed", "heading", "section"}
  {
    match s
    case "task" => Some(Task)
    case "note" => Some(Note)
    case "milestone" => Some(Milestone)
    case "decision" => Some(Decision)
    case "detailed" => Some(Detailed)
    case "heading" => Some(Heading)
    case "section" => Some(Section)
    case _ => None
  }

  function NodeStatusName(s: NodeStatus): string {
    match s
    case Todo => "todo"
    case InProgress => "in-progress"
    case Complete => "complete"
  }

  /** Reads a status back from its spelling; any other string is rejected. */
  function ParseNodeStatus(s: string): (r: Option<NodeStatus>)
    ensures r.Some? ==> NodeStatusName(r.value) == s
    ensures forall t :: NodeStatusName(t) == s ==> r == Some(t)
    ensures r.Some? <==> s in {"todo", "in-progress", "complete"}
  {
    match s
    case "todo" => Some(Todo)
    case "in-progress" => Some(InProgress)
    case "complete" => Some(Complete)
    case _ => None
  }

  function ConnectionStyleName(s: ConnectionStyle): string {
    match s
    case Bezier => "bezier"
    case Straight => "straight"
    case Orthogonal => "orthogonal"
  }

  /** Reads a connection style back from its spelling. */
  function ParseConnectionStyle(s: string): (r: Option<ConnectionStyle>)
    ensures r.Some? ==> ConnectionStyleName(r.value) == s
    ensures forall t :: ConnectionStyleName(t) == s ==> r == Some(t)
    ensures r.Some? <==> s in {"bezier", "straight", "orthogonal"}
  {
    match s
    case "bezier" => Some(Bezier)
    case "straight" => Some(Straight)
    case "orthogonal" => Some(Orthogonal)
    case _ => None
  }

  /** The border colour every new node starts with. */
  const DefaultBorderColor: string := "#000000"

  /** The store's built-in legend. */
  const DefaultGlossary: ColorGlossary := ColorGlossary(true, map[
    "#000000" := "Default",
    "#DC2626" := "Urgent",
    "#2563EB" := "In Progress",
    "#16A34A" := "Research",
    "#CA8A04" := "Needs Review",
    "#9333EA" := "Long-term",
    "#EA580C" := "Blocked",
    "#DB2777" := "Creative",
    "#0D9488" := "Technical",
    "#6B7280" := "On Hold"])

  /** The settings every new board starts with. */
  const DefaultSettings: BoardSettings := BoardSettings(true, true, 20, false, Task, Bezier)
}
