/**
 * The AI-plan importer: validates the parsed plan, maps logical node ids to
 * generated ids, resolves connections (silently dropping dangling ones), lays
 * the nodes out top-to-bottom and hydrates them into board nodes and
 * connections with type-dependent defaults.
 *
 * `JSON.parse` is an oracle whose outcome is a `ParseOutcome`; `uuidv4` is the
 * supply `uuid`, called with 0, 1, 2, ... in call order; `new Date()` is `now`
 * and `new Date(iso)` is `parseDate`.
 */
module Importer {
  import opened Wrappers
  import opened Types
  import opened Flow
  import opened Layout
  import opened Collections
  import Decimal

  /** A plan node; absent string fields are modelled as "". */
  datatype AINode = AINode(
    id: string,
    labelText: string,
    kind: Option<NodeType>,
    date: string,
    status: Option<NodeStatus>,
    details: string)

  datatype AIConnection = AIConnection(from: string, to: string, labelText: Option<string>)

  /** The plan's `connections` field: absent or falsy, an array, or some other truthy value. */
  datatype ConnectionsField = NoConnections | ConnectionList(items: seq<AIConnection>) | NotAList

  /**
   * What `JSON.parse` produced: `null`, or any other value read through its
   * `title`, `nodes` and `connections` properties. `nodes` is `None` when it
   * is missing, falsy or not an array; `title` is "" when absent.
   */
  datatype PlanValue = NullValue | PlanDoc(title: string, nodes: Option<seq<AINode>>, connections: ConnectionsField)

  datatype ParseOutcome = Unparseable | Parsed(value: PlanValue)

  /** The errors the importer throws. */
  datatype ImportError = InvalidJson | InvalidStructure | RuntimeTypeError(message: string) {
    function Message(): string {
      match this
      case InvalidJson => "Invalid JSON format. Please ensure valid JSON."
      case InvalidStructure => "Invalid structure: 'nodes' array is missing."
      case RuntimeTypeError(m) => m
    }
  }

  /**
   * The runtime's message when the parsed value is `null`. Both messages are
   * the wording of the V8 engine; other engines word them differently, and a
   * minified build renames the `plan` variable the second one quotes.
   */
  const NullNodesMessage: string := "Cannot read properties of null (reading 'nodes')"
  /** The runtime's message when `connections` is truthy but not an array (see above). */
  const NotAListMessage: string := "(plan.connections || []).map is not a function"

  /** A plan that passed the structural checks. */
  datatype Plan = Plan(title: string, nodes: seq<AINode>, connections: ConnectionsField)

  datatype ImportedPlan = ImportedPlan(boardName: string, nodes: seq<AppNode>, connections: seq<AppConnection>)

  /** The id supply: the n-th call of `uuidv4` returns `uuid(n)`. */
  type Uuid = nat -> string

  /** A supply whose ids are non-empty and never repeat, as `uuidv4`'s are. */
  ghost predicate Fresh(uuid: Uuid) {
    && (forall i: nat, j: nat :: uuid(i) == uuid(j) ==> i == j)
    && (forall i: nat :: uuid(i) != "")
  }

  const DefaultBoardName: string := "Imported Plan"
  const UntitledContent: string := "Untitled"

  /**
   * The structural checks: text the parser rejects is invalid JSON; a `null`
   * value throws when its `nodes` is read; a value without a `nodes` array
   * has an invalid structure.
   */
  function Validate(p: ParseOutcome): (r: Result<Plan, ImportError>)
    ensures r == Failure(InvalidJson) <==> p.Unparseable?
    ensures r == Failure(RuntimeTypeError(NullNodesMessage)) <==> p == Parsed(NullValue)
    ensures r == Failure(InvalidStructure) <==> p.Parsed? && p.value.PlanDoc? && p.value.nodes.None?
    ensures r.Success? <==> p.Parsed? && p.value.PlanDoc? && p.value.nodes.Some?
    ensures r.Success? ==> r.value == Plan(p.value.title, p.value.nodes.value, p.value.connections)
  {
    match p
    case Unparseable => Failure(InvalidJson)
    case Parsed(NullValue) => Failure(RuntimeTypeError(NullNodesMessage))
    case Parsed(PlanDoc(title, nodes, connections)) =>
      if nodes.None? then Failure(InvalidStructure) else Success(Plan(title, nodes.value, connections))
  }

  function LogicalIds(nodes: seq<AINode>): (ids: seq<string>)
    ensures |ids| == |nodes| && forall i :: 0 <= i < |nodes| ==> ids[i] == nodes[i].id
  {
    seq(|nodes|, i requires 0 <= i < |nodes| => nodes[i].id)
  }

  /** `s` is the logical id of some listed node. */
  predicate Listed(nodes: seq<AINode>, s: string) {
    exists i :: 0 <= i < |nodes| && nodes[i].id == s
  }

  /**
   * The id map: every listed logical id gets an id; the i-th node's call of
   * the supply is `uuid(i)`, and a logical id listed twice keeps the id of
   * its last occurrence.
   */
  function IdMap(nodes: seq<AINode>, uuid: Uuid): (m: map<string, string>)
    ensures forall s :: s in m <==> Listed(nodes, s)
    ensures forall i :: 0 <= i < |nodes| ==> nodes[i].id in m
    ensures forall i :: 0 <= i < |nodes| && IsLast(LogicalIds(nodes), i) ==> m[nodes[i].id] == uuid(i)
  {
    var ids := LogicalIds(nodes);
    var m := LastWins(ids, seq(|nodes|, i requires 0 <= i < |nodes| => uuid(i)));
    assert forall s :: s in m ==> Listed(nodes, s) by {
      forall s | s in m ensures Listed(nodes, s) {
        assert s in ids;
      }
    }
    assert forall s :: Listed(nodes, s) ==> s in m by {
      forall s | Listed(nodes, s) ensures s in m {
        var i :| 0 <= i < |nodes| && nodes[i].id == s;
        assert ids[i] in ids;
      }
    }
    m
  }

  /** `idMap.get(k)` used as a condition: a missing key reads as the falsy "". */
  function Lookup(m: map<string, string>, k: string): string {
    if k in m then m[k] else ""
  }

  /** A connection's resolved (source, target), unless either end is falsy. */
  function Resolve(c: AIConnection, m: map<string, string>): (r: Option<(string, string)>)
    ensures r.Some? <==> c.from in m && m[c.from] != "" && c.to in m && m[c.to] != ""
    ensures r.Some? ==> r.value == (m[c.from], m[c.to])
  {
    var source := Lookup(m, c.from);
    var target := Lookup(m, c.to);
    if source == "" || target == "" then None else Some((source, target))
  }

  /** The number of connections that resolve. */
  function KeptCount(conns: seq<AIConnection>, m: map<string, string>): nat {
    if |conns| == 0 then 0
    else (if Resolve(conns[0], m).Some? then 1 else 0) + KeptCount(conns[1..], m)
  }

  /** `plan.connections || []`, for a field that is not `NotAList`. */
  function ConnectionItems(f: ConnectionsField): seq<AIConnection> {
    if f.ConnectionList? then f.items else []
  }

  /** The payload of an importer layout node carries no `width`. */
  function NoWidth(d: ()): Option<real> {
    None
  }

  /** The layout input for one plan node: the mapped id and a size hint on the node itself. */
  function LayoutInput(n: AINode, m: map<string, string>): FlowNode<()>
    requires n.id in m
  {
    var detailed := n.kind == Some(Detailed);
    FlowNode(m[n.id], None, Point(0.0, 0.0), (), None, false, None,
             Some(if detailed then 400.0 else 250.0), Some(if detailed then 300.0 else 80.0), None, None)
  }

  /** The layout edges: one per resolved connection, named after its index. */
  function KeptEdges(conns: seq<AIConnection>, m: map<string, string>, index: nat): (edges: seq<FlowEdge>)
    ensures |edges| == KeptCount(conns, m)
    decreases |conns|
  {
    if |conns| == 0 then []
    else
      var rest := KeptEdges(conns[1..], m, index + 1);
      match Resolve(conns[0], m)
      case None => rest
      case Some((s, t)) => [PlainEdge("e-" + Decimal.NatToString(index), s, t)] + rest
  }

  /** A plan node's content: details for a detailed node that has them, else the label, else "Untitled". */
  function Content(n: AINode): (c: string)
    ensures n.kind == Some(Detailed) && n.details != "" ==> c == n.details
    ensures !(n.kind == Some(Detailed) && n.details != "") && n.labelText != "" ==> c == n.labelText
    ensures !(n.kind == Some(Detailed) && n.details != "") && n.labelText == "" ==> c == UntitledContent
  {
    if n.kind == Some(Detailed) && n.details != "" then n.details
    else if n.labelText != "" then n.labelText
    else UntitledContent
  }

  /** A hydrated node, with every default the importer applies. */
  function HydrateNode(n: AINode, id: string, position: Point, now: Instant, parseDate: string -> Instant): (a: AppNode)
    ensures a.id == id && a.position == position && a.content == Content(n)
    ensures a.kind == (if n.kind.Some? then n.kind.value else Task)
    ensures a.borderColor == DefaultBorderColor
    ensures a.fontSize == Some(if n.kind == Some(Heading) then 30 else 14)
    ensures a.status == Some(if n.status.Some? then n.status.value else Todo)
    ensures a.dateTime == (if n.date != "" then Some(parseDate(n.date)) else None)
    ensures a.width.None? && a.createdAt == now && a.updatedAt == now
  {
    AppNode(id, n.kind.GetOr(Task), Content(n), position, None, DefaultBorderColor,
            Some(if n.kind == Some(Heading) then 30 else 14),
            if n.date != "" then Some(parseDate(n.date)) else None,
            Some(n.status.GetOr(Todo)), now, now)
  }

  /** `plan.nodes.find(n => idMap.get(n.id) === id)`, with the non-null assertion's fallback. */
  function Original(nodes: seq<AINode>, m: map<string, string>, id: string, fallback: AINode): (r: AINode)
    ensures (forall j :: 0 <= j < |nodes| ==> Lookup(m, nodes[j].id) != id) ==> r == fallback
    ensures forall k :: 0 <= k < |nodes| && Lookup(m, nodes[k].id) == id && (forall j :: 0 <= j < k ==> Lookup(m, nodes[j].id) != id) ==>
      r == nodes[k]
  {
    match FindFirst(nodes, (n: AINode) => Lookup(m, n.id) == id)
    case Some(o) =>
      forall k | 0 <= k < |nodes| && Lookup(m, nodes[k].id) == id && (forall j :: 0 <= j < k ==> Lookup(m, nodes[j].id) != id)
        ensures nodes[k] == o
      {
        FindFirstAt(nodes, (n: AINode) => Lookup(m, n.id) == id, k);
      }
      o
    case None => fallback
  }

  const SourceHandle: string := "bottom-source"
  const TargetHandle: string := "top"

  /** The connection for a resolved plan connection. */
  function HydrateConnection(id: string, ends: (string, string), c: AIConnection): AppConnection {
    AppConnection(id, ends.0, SourceHandle, ends.1, TargetHandle, c.labelText, Some(Bezier))
  }

  /** `c` is a resolved plan connection whose hydration, given the id, is `a`. */
  predicate HydratedFrom(a: AppConnection, c: AIConnection, m: map<string, string>) {
    Resolve(c, m).Some? && a == HydrateConnection(a.id, Resolve(c, m).value, c)
  }

  /**
   * The hydrated connections: one per resolved plan connection, in order,
   * the k-th taking the supply's id `uuid(next + k)`.
   */
  function HydrateConnections(conns: seq<AIConnection>, m: map<string, string>, uuid: Uuid, next: nat): (r: seq<AppConnection>)
    ensures |r| == KeptCount(conns, m)
    ensures forall k :: 0 <= k < |r| ==> r[k].id == uuid(next + k)
    ensures forall k :: 0 <= k < |r| ==> FromPlan(r[k], conns, m)
    decreases |conns|
  {
    if |conns| == 0 then []
    else
      var tail := conns[1..];
      if Resolve(conns[0], m).None? then
        var rest := HydrateConnections(tail, m, uuid, next);
        FromPlanTail(rest, conns, m);
        rest
      else
        var head := HydrateConnection(uuid(next), Resolve(conns[0], m).value, conns[0]);
        var rest := HydrateConnections(tail, m, uuid, next + 1);
        KeptConnection(head, rest, conns, m, uuid, next);
        [head] + rest
  }

  /** One step of `HydrateConnections`: the hydrated first connection in front keeps all three guarantees. */
  lemma KeptConnection(head: AppConnection, rest: seq<AppConnection>, conns: seq<AIConnection>,
                       m: map<string, string>, uuid: Uuid, next: nat)
    requires |conns| > 0 && Resolve(conns[0], m).Some?
    requires head == HydrateConnection(uuid(next), Resolve(conns[0], m).value, conns[0])
    requires |rest| == KeptCount(conns[1..], m)
    requires forall k :: 0 <= k < |rest| ==> rest[k].id == uuid(next + 1 + k)
    requires forall k :: 0 <= k < |rest| ==> FromPlan(rest[k], conns[1..], m)
    ensures |[head] + rest| == KeptCount(conns, m)
    ensures forall k :: 0 <= k < |[head] + rest| ==> ([head] + rest)[k].id == uuid(next + k)
    ensures forall k :: 0 <= k < |[head] + rest| ==> FromPlan(([head] + rest)[k], conns, m)
  {
    var r := [head] + rest;
    FromPlanTail(rest, conns, m);
    assert FromPlan(head, conns, m) by {
      assert conns[0] in conns && HydratedFrom(head, conns[0], m);
    }
    forall k | 0 <= k < |r| ensures r[k].id == uuid(next + k) && FromPlan(r[k], conns, m) {
      if k > 0 {
        assert r[k] == rest[k - 1];
      }
    }
  }

  /** `a` is the hydration of some resolved connection of `conns`. */
  ghost predicate FromPlan(a: AppConnection, conns: seq<AIConnection>, m: map<string, string>) {
    exists c :: c in conns && HydratedFrom(a, c, m)
  }

  lemma FromPlanTail(rest: seq<AppConnection>, conns: seq<AIConnection>, m: map<string, string>)
    requires |conns| > 0
    requires forall k :: 0 <= k < |rest| ==> FromPlan(rest[k], conns[1..], m)
    ensures forall k :: 0 <= k < |rest| ==> FromPlan(rest[k], conns, m)
  {
    forall k | 0 <= k < |rest| ensures FromPlan(rest[k], conns, m) {
      var c :| c in conns[1..] && HydratedFrom(rest[k], c, m);
      assert c in conns;
    }
  }

  /** The layout inputs, one per plan node. */
  function LayoutInputs(nodes: seq<AINode>, m: map<string, string>): (r: seq<FlowNode<()>>)
    requires forall i :: 0 <= i < |nodes| ==> nodes[i].id in m
    ensures |r| == |nodes| && forall i :: 0 <= i < |nodes| ==> r[i] == LayoutInput(nodes[i], m)
  {
    seq(|nodes|, i requires 0 <= i < |nodes| => LayoutInput(nodes[i], m))
  }

  /** The laid-out importer nodes: one per plan node, carrying its mapped id. */
  function LaidOut(nodes: seq<AINode>, m: map<string, string>, conns: seq<AIConnection>, dagre: Dagre): (laid: seq<FlowNode<()>>)
    requires forall i :: 0 <= i < |nodes| ==> nodes[i].id in m
    ensures |laid| == |nodes|
    ensures forall i :: 0 <= i < |nodes| ==> laid[i].id == m[nodes[i].id]
  {
    var inputs := LayoutInputs(nodes, m);
    var laid := GetLayoutedElements(inputs, KeptEdges(conns, m, 0), "TB", NoWidth, dagre).0;
    assert forall i :: 0 <= i < |nodes| ==> laid[i].id == inputs[i].id by {
      forall i | 0 <= i < |nodes| ensures laid[i].id == inputs[i].id {
        assert SameExceptPlacement(laid[i], inputs[i]);
      }
    }
    laid
  }

  /** The hydrated nodes, one per laid-out node. */
  function HydrateNodes(nodes: seq<AINode>, m: map<string, string>, laid: seq<FlowNode<()>>, now: Instant, parseDate: string -> Instant)
    : (r: seq<AppNode>)
    requires |laid| == |nodes|
    ensures |r| == |nodes|
    ensures forall i :: 0 <= i < |nodes| ==> r[i].id == laid[i].id && r[i].position == laid[i].position
    ensures forall i :: 0 <= i < |nodes| ==>
      r[i] == HydrateNode(Original(nodes, m, laid[i].id, nodes[i]), laid[i].id, laid[i].position, now, parseDate)
  {
    seq(|nodes|, i requires 0 <= i < |nodes| =>
      HydrateNode(Original(nodes, m, laid[i].id, nodes[i]), laid[i].id, laid[i].position, now, parseDate))
  }

  /**
   * The import of a validated plan: one node per plan node, in plan order,
   * each with the id mapped from its logical id; the connections that
   * resolve; the title, or "Imported Plan" when it is empty.
   */
  function Hydrate(plan: Plan, uuid: Uuid, dagre: Dagre, now: Instant, parseDate: string -> Instant): (r: ImportedPlan)
    requires !plan.connections.NotAList?
    ensures var m := IdMap(plan.nodes, uuid);
      && |r.nodes| == |plan.nodes|
      && (forall i :: 0 <= i < |plan.nodes| ==> r.nodes[i].id == m[plan.nodes[i].id])
      && r.boardName == (if plan.title != "" then plan.title else DefaultBoardName)
      && r.connections == HydrateConnections(ConnectionItems(plan.connections), m, uuid, |plan.nodes|)
  {
    var m := IdMap(plan.nodes, uuid);
    var conns := ConnectionItems(plan.connections);
    var laid := LaidOut(plan.nodes, m, conns, dagre);
    var nodes := HydrateNodes(plan.nodes, m, laid, now, parseDate);
    assert forall i :: 0 <= i < |plan.nodes| ==> nodes[i].id == laid[i].id;
    ImportedPlan(if plan.title != "" then plan.title else DefaultBoardName,
                 nodes, HydrateConnections(conns, m, uuid, |plan.nodes|))
  }

  /** The imported nodes are the hydration of the laid-out plan nodes. */
  lemma HydrateNodesOfPlan(plan: Plan, uuid: Uuid, dagre: Dagre, now: Instant, parseDate: string -> Instant)
    requires !plan.connections.NotAList?
    ensures var m := IdMap(plan.nodes, uuid);
      Hydrate(plan, uuid, dagre, now, parseDate).nodes
        == HydrateNodes(plan.nodes, m, LaidOut(plan.nodes, m, ConnectionItems(plan.connections), dagre), now, parseDate)
  {
  }

  /**
   * `parseAndLayoutPlan`: fails exactly as `Validate` does, or with a
   * runtime TypeError when `connections` is truthy but not an array;
   * otherwise imports the validated plan.
   */
  function ParseAndLayoutPlan(p: ParseOutcome, uuid: Uuid, dagre: Dagre, now: Instant, parseDate: string -> Instant)
    : (r: Result<ImportedPlan, ImportError>)
    ensures Validate(p).Failure? ==> r == Failure(Validate(p).error)
    ensures Validate(p).Success? && Validate(p).value.connections.NotAList? ==> r == Failure(RuntimeTypeError(NotAListMessage))
    ensures r.Success? <==> Validate(p).Success? && !Validate(p).value.connections.NotAList?
    ensures r.Success? ==> r.value == Hydrate(Validate(p).value, uuid, dagre, now, parseDate)
  {
    match Validate(p)
    case Failure(e) => Failure(e)
    case Success(plan) =>
      if plan.connections.NotAList? then Failure(RuntimeTypeError(NotAListMessage))
      else Success(Hydrate(plan, uuid, dagre, now, parseDate))
  }

  /** The graph the importer hands to dagre. */
  function ImportGraph(nodes: seq<AINode>, m: map<string, string>, conns: seq<AIConnection>): Graph
    requires forall i :: 0 <= i < |nodes| ==> nodes[i].id in m
  {
    BuildGraph(LayoutInputs(nodes, m), KeptEdges(conns, m, 0), "TB", NoWidth)
  }

  /**
   * The importer's 400x300 / 250x80 size hints sit on the layout nodes
   * themselves, which the layout never reads: every vertex is 172x50.
   */
  lemma ImportGraphIgnoresSizeHints(nodes: seq<AINode>, m: map<string, string>, conns: seq<AIConnection>)
    requires forall i :: 0 <= i < |nodes| ==> nodes[i].id in m
    ensures ImportGraph(nodes, m, conns).config == GraphConfig("TB", RankSep, NodeSep)
    ensures forall k :: k in ImportGraph(nodes, m, conns).vertices ==>
      ImportGraph(nodes, m, conns).vertices[k] == Size(FallbackWidth, FallbackHeight)
  {
    var inputs := LayoutInputs(nodes, m);
    var g := ImportGraph(nodes, m, conns);
    forall k | k in g.vertices ensures g.vertices[k] == Size(FallbackWidth, FallbackHeight) {
      var i :| 0 <= i < |inputs| && inputs[i].id == k;
      var j := LastOccurrenceExists(Ids(inputs), i);
      assert g.vertices[inputs[j].id] == NodeSize(inputs[j], NoWidth);
    }
  }

  /** The laid-out importer nodes sit at dagre's centre shifted by half of 172x50. */
  lemma LaidOutPositions(nodes: seq<AINode>, m: map<string, string>, conns: seq<AIConnection>, dagre: Dagre)
    requires forall i :: 0 <= i < |nodes| ==> nodes[i].id in m
    ensures var laid := LaidOut(nodes, m, conns, dagre);
      forall i :: 0 <= i < |nodes| ==>
        laid[i].position == TopLeft(dagre(ImportGraph(nodes, m, conns))(laid[i].id), Size(FallbackWidth, FallbackHeight))
  {
    var inputs := LayoutInputs(nodes, m);
    var g := ImportGraph(nodes, m, conns);
    ImportGraphIgnoresSizeHints(nodes, m, conns);
    var full := GetLayoutedElements(inputs, KeptEdges(conns, m, 0), "TB", NoWidth, dagre).0;
    assert LaidOut(nodes, m, conns, dagre) == full;
    forall i | 0 <= i < |nodes|
      ensures full[i].position == TopLeft(dagre(g)(full[i].id), Size(FallbackWidth, FallbackHeight))
    {
      assert full[i].position == TopLeft(dagre(g)(inputs[i].id), g.vertices[inputs[i].id]);
      assert SameExceptPlacement(full[i], inputs[i]);
    }
  }

  /** Every imported node sits at dagre's centre for its id, shifted by half of 172x50. */
  lemma ImportedPositions(plan: Plan, uuid: Uuid, dagre: Dagre, now: Instant, parseDate: string -> Instant)
    requires !plan.connections.NotAList?
    ensures var m := IdMap(plan.nodes, uuid); var r := Hydrate(plan, uuid, dagre, now, parseDate);
      forall i :: 0 <= i < |r.nodes| ==>
        r.nodes[i].position == TopLeft(dagre(ImportGraph(plan.nodes, m, ConnectionItems(plan.connections)))(r.nodes[i].id),
                                       Size(FallbackWidth, FallbackHeight))
  {
    var m := IdMap(plan.nodes, uuid);
    var conns := ConnectionItems(plan.connections);
    LaidOutPositions(plan.nodes, m, conns, dagre);
    var laid := LaidOut(plan.nodes, m, conns, dagre);
    var r := Hydrate(plan, uuid, dagre, now, parseDate);
    HydrateNodesOfPlan(plan, uuid, dagre, now, parseDate);
    var g := ImportGraph(plan.nodes, m, conns);
    CarriedPositions(r.nodes, laid, dagre, g);
  }

  /** Nodes that carry the ids and positions of laid-out nodes are placed as those were. */
  lemma CarriedPositions(imported: seq<AppNode>, laid: seq<FlowNode<()>>, dagre: Dagre, g: Graph)
    requires |imported| == |laid|
    requires forall i :: 0 <= i < |laid| ==> imported[i].id == laid[i].id && imported[i].position == laid[i].position
    requires forall i :: 0 <= i < |laid| ==> laid[i].position == TopLeft(dagre(g)(laid[i].id), Size(FallbackWidth, FallbackHeight))
    ensures forall i :: 0 <= i < |imported| ==>
      imported[i].position == TopLeft(dagre(g)(imported[i].id), Size(FallbackWidth, FallbackHeight))
  {
  }

  /**
   * With a fresh supply, the node hydrated at position i takes its content,
   * type, date and status from the FIRST plan node sharing its logical id,
   * and every node sharing that logical id gets the same id.
   */
  lemma ImportedNodeSource(plan: Plan, uuid: Uuid, dagre: Dagre, now: Instant, parseDate: string -> Instant, i: int, f: int)
    requires Fresh(uuid) && !plan.connections.NotAList?
    requires var nodes := plan.nodes;
      0 <= f <= i < |nodes| && nodes[f].id == nodes[i].id && forall j :: 0 <= j < f ==> nodes[j].id != nodes[i].id
    ensures var nodes := plan.nodes; var m := IdMap(nodes, uuid);
      var r := Hydrate(plan, uuid, dagre, now, parseDate);
      && r.nodes[i].id == r.nodes[f].id == m[nodes[i].id]
      && r.nodes[i] == HydrateNode(nodes[f], m[nodes[i].id], r.nodes[i].position, now, parseDate)
  {
    var nodes := plan.nodes;
    var m := IdMap(nodes, uuid);
    var conns := ConnectionItems(plan.connections);
    var laid := LaidOut(nodes, m, conns, dagre);
    HydrateNodesOfPlan(plan, uuid, dagre, now, parseDate);
    OriginalIsFirst(nodes, uuid, i, f);
  }

  /** With a fresh supply, the plan node found for a mapped id is the first one with that logical id. */
  lemma OriginalIsFirst(nodes: seq<AINode>, uuid: Uuid, i: int, f: int)
    requires Fresh(uuid)
    requires 0 <= f <= i < |nodes| && nodes[f].id == nodes[i].id && forall j :: 0 <= j < f ==> nodes[j].id != nodes[i].id
    ensures Original(nodes, IdMap(nodes, uuid), IdMap(nodes, uuid)[nodes[i].id], nodes[i]) == nodes[f]
  {
    var m := IdMap(nodes, uuid);
    var id := m[nodes[i].id];
    var match_ := (n: AINode) => Lookup(m, n.id) == id;
    forall j | 0 <= j < f ensures !match_(nodes[j]) {
      var lj := LastOccurrenceExists(LogicalIds(nodes), j);
      var li := LastOccurrenceExists(LogicalIds(nodes), i);
      assert m[nodes[j].id] == uuid(lj) && id == uuid(li);
      assert lj != li;
    }
    FindFirstAt(nodes, match_, f);
  }

  /** With distinct logical ids, node i is the hydration of plan node i. */
  lemma ImportedNodeIsOwnPlanNode(plan: Plan, uuid: Uuid, dagre: Dagre, now: Instant, parseDate: string -> Instant, i: int)
    requires Fresh(uuid) && !plan.connections.NotAList?
    requires 0 <= i < |plan.nodes| && forall a, b :: 0 <= a < b < |plan.nodes| ==> plan.nodes[a].id != plan.nodes[b].id
    ensures var r := Hydrate(plan, uuid, dagre, now, parseDate);
      r.nodes[i] == HydrateNode(plan.nodes[i], uuid(i), r.nodes[i].position, now, parseDate)
  {
    assert IsLast(LogicalIds(plan.nodes), i);
    ImportedNodeSource(plan, uuid, dagre, now, parseDate, i, i);
  }

  /** Each hydrated connection joins the mapped ids of two listed logical ids. */
  lemma HydratedConnectionEnds(conns: seq<AIConnection>, nodes: seq<AINode>, uuid: Uuid, next: nat)
    ensures var m := IdMap(nodes, uuid);
      forall a :: a in HydrateConnections(conns, m, uuid, next) ==>
        && a.sourceHandle == SourceHandle && a.targetHandle == TargetHandle && a.style == Some(Bezier)
        && (exists i :: 0 <= i < |nodes| && m[nodes[i].id] == a.source)
        && (exists j :: 0 <= j < |nodes| && m[nodes[j].id] == a.target)
  {
    var m := IdMap(nodes, uuid);
    var r := HydrateConnections(conns, m, uuid, next);
    forall a | a in r
      ensures (exists i :: 0 <= i < |nodes| && m[nodes[i].id] == a.source)
      ensures (exists j :: 0 <= j < |nodes| && m[nodes[j].id] == a.target)
      ensures a.sourceHandle == SourceHandle && a.targetHandle == TargetHandle && a.style == Some(Bezier)
    {
      var k :| 0 <= k < |r| && r[k] == a;
      assert FromPlan(a, conns, m);
      var c :| c in conns && HydratedFrom(a, c, m);
      HydratedFromEnds(a, c, nodes, m);
    }
  }

  /** One hydrated connection: its ends are the mapped ids of its listed plan ends. */
  lemma HydratedFromEnds(a: AppConnection, c: AIConnection, nodes: seq<AINode>, m: map<string, string>)
    requires HydratedFrom(a, c, m)
    requires forall s :: s in m <==> Listed(nodes, s)
    requires forall i :: 0 <= i < |nodes| ==> nodes[i].id in m
    ensures a.sourceHandle == SourceHandle && a.targetHandle == TargetHandle && a.style == Some(Bezier)
    ensures exists i :: 0 <= i < |nodes| && m[nodes[i].id] == a.source
    ensures exists j :: 0 <= j < |nodes| && m[nodes[j].id] == a.target
  {
    assert c.from in m && c.to in m;
    assert Listed(nodes, c.from) && Listed(nodes, c.to);
    var i :| 0 <= i < |nodes| && nodes[i].id == c.from;
    var j :| 0 <= j < |nodes| && nodes[j].id == c.to;
    assert m[nodes[i].id] == a.source && m[nodes[j].id] == a.target;
  }

  /**
   * Every imported connection joins two imported nodes (no dangling
   * endpoint survives), leaves from 'bottom-source', enters at 'top', is
   * drawn as a bezier.
   */
  lemma ImportedConnectionsJoinImportedNodes(plan: Plan, uuid: Uuid, dagre: Dagre, now: Instant, parseDate: string -> Instant)
    requires !plan.connections.NotAList?
    ensures var r := Hydrate(plan, uuid, dagre, now, parseDate);
      forall a :: a in r.connections ==>
        && a.sourceHandle == SourceHandle && a.targetHandle == TargetHandle && a.style == Some(Bezier)
        && (exists i :: 0 <= i < |r.nodes| && r.nodes[i].id == a.source)
        && (exists j :: 0 <= j < |r.nodes| && r.nodes[j].id == a.target)
  {
    var m := IdMap(plan.nodes, uuid);
    var conns := ConnectionItems(plan.connections);
    HydratedConnectionEnds(conns, plan.nodes, uuid, |plan.nodes|);
    var r := Hydrate(plan, uuid, dagre, now, parseDate);
    EndsAmongNodes(plan.nodes, m, r.nodes, r.connections);
  }

  /** Connections whose ends are mapped plan ids join nodes carrying those mapped ids. */
  lemma EndsAmongNodes(nodes: seq<AINode>, m: map<string, string>, imported: seq<AppNode>, conns: seq<AppConnection>)
    requires |imported| == |nodes| && forall i :: 0 <= i < |nodes| ==> nodes[i].id in m
    requires forall i :: 0 <= i < |nodes| ==> imported[i].id == m[nodes[i].id]
    requires forall a :: a in conns ==>
      && (exists i :: 0 <= i < |nodes| && m[nodes[i].id] == a.source)
      && (exists j :: 0 <= j < |nodes| && m[nodes[j].id] == a.target)
    ensures forall a :: a in conns ==>
      && (exists i :: 0 <= i < |imported| && imported[i].id == a.source)
      && (exists j :: 0 <= j < |imported| && imported[j].id == a.target)
  {
    forall a | a in conns
      ensures exists i :: 0 <= i < |imported| && imported[i].id == a.source
      ensures exists j :: 0 <= j < |imported| && imported[j].id == a.target
    {
      var i :| 0 <= i < |nodes| && m[nodes[i].id] == a.source;
      var j :| 0 <= j < |nodes| && m[nodes[j].id] == a.target;
      assert imported[i].id == a.source && imported[j].id == a.target;
    }
  }

  /** The number of connections whose two ends are listed logical ids. */
  function ListedCount(conns: seq<AIConnection>, nodes: seq<AINode>): nat {
    if |conns| == 0 then 0
    else (if Listed(nodes, conns[0].from) && Listed(nodes, conns[0].to) then 1 else 0) + ListedCount(conns[1..], nodes)
  }

  /** With non-empty ids, a connection resolves iff both its ends are listed. */
  lemma {:induction false} KeptIffListed(conns: seq<AIConnection>, nodes: seq<AINode>, uuid: Uuid)
    requires Fresh(uuid)
    ensures forall c :: Resolve(c, IdMap(nodes, uuid)).Some? <==> Listed(nodes, c.from) && Listed(nodes, c.to)
    ensures KeptCount(conns, IdMap(nodes, uuid)) == ListedCount(conns, nodes)
  {
    var m := IdMap(nodes, uuid);
    forall s | s in m ensures m[s] != "" {
      var i :| 0 <= i < |nodes| && nodes[i].id == s;
      var j := LastOccurrenceExists(LogicalIds(nodes), i);
      assert m[s] == uuid(j);
    }
    if |conns| > 0 {
      KeptIffListed(conns[1..], nodes, uuid);
    }
  }

  /**
   * A connection is kept iff both ends are listed logical ids; an absent
   * `connections` field yields no connections.
   */
  lemma ImportedConnectionCount(plan: Plan, uuid: Uuid, dagre: Dagre, now: Instant, parseDate: string -> Instant)
    requires Fresh(uuid) && !plan.connections.NotAList?
    ensures |Hydrate(plan, uuid, dagre, now, parseDate).connections| == ListedCount(ConnectionItems(plan.connections), plan.nodes)
    ensures plan.connections.NoConnections? ==> Hydrate(plan, uuid, dagre, now, parseDate).connections == []
  {
    KeptIffListed(ConnectionItems(plan.connections), plan.nodes, uuid);
  }

  /** The scenario's plan, after validation. */
  function TwoTaskPlan(): Plan {
    Plan("T", [AINode("a", "A", Some(Task), "", None, ""), AINode("b", "B", Some(Task), "", None, "")],
         ConnectionList([AIConnection("a", "b", None)]))
  }

  lemma TwoTaskIds(uuid: Uuid)
    ensures var m := IdMap(TwoTaskPlan().nodes, uuid);
      "a" in m && "b" in m && m["a"] == uuid(0) && m["b"] == uuid(1)
  {
    var nodes := TwoTaskPlan().nodes;
    assert IsLast(LogicalIds(nodes), 0) && IsLast(LogicalIds(nodes), 1);
  }

  lemma TwoTaskConnection(m: map<string, string>, uuid: Uuid)
    requires "a" in m && "b" in m && m["a"] == uuid(0) && m["b"] == uuid(1) && uuid(0) != "" && uuid(1) != ""
    ensures var c := AIConnection("a", "b", None);
      HydrateConnections([c], m, uuid, 2) == [HydrateConnection(uuid(2), (uuid(0), uuid(1)), c)]
  {
    var c := AIConnection("a", "b", None);
    assert Resolve(c, m) == Some((uuid(0), uuid(1)));
    assert [c][1..] == [];
  }

  lemma TwoTaskNodes(uuid: Uuid, dagre: Dagre, now: Instant, parseDate: string -> Instant)
    requires Fresh(uuid)
    ensures var r := Hydrate(TwoTaskPlan(), uuid, dagre, now, parseDate);
      && |r.nodes| == 2 && r.nodes[0].id == uuid(0) && r.nodes[1].id == uuid(1)
      && r.nodes[0].content == "A" && r.nodes[1].content == "B"
  {
    var plan := TwoTaskPlan();
    ImportedNodeIsOwnPlanNode(plan, uuid, dagre, now, parseDate, 0);
    ImportedNodeIsOwnPlanNode(plan, uuid, dagre, now, parseDate, 1);
  }

  lemma TwoTaskConnections(uuid: Uuid, dagre: Dagre, now: Instant, parseDate: string -> Instant)
    requires Fresh(uuid)
    ensures var r := Hydrate(TwoTaskPlan(), uuid, dagre, now, parseDate);
      r.connections == [HydrateConnection(uuid(2), (uuid(0), uuid(1)), AIConnection("a", "b", None))]
  {
    var plan := TwoTaskPlan();
    var m := IdMap(plan.nodes, uuid);
    TwoTaskIds(uuid);
    TwoTaskConnection(m, uuid);
    assert ConnectionItems(plan.connections) == [AIConnection("a", "b", None)];
  }

  lemma TwoTaskHydration(uuid: Uuid, dagre: Dagre, now: Instant, parseDate: string -> Instant)
    requires Fresh(uuid)
    ensures var r := Hydrate(TwoTaskPlan(), uuid, dagre, now, parseDate);
      && r.boardName == "T" && |r.nodes| == 2 && r.nodes[0].id == uuid(0) && r.nodes[1].id == uuid(1)
      && r.nodes[0].content == "A" && r.nodes[1].content == "B"
      && r.connections == [HydrateConnection(uuid(2), (uuid(0), uuid(1)), AIConnection("a", "b", None))]
  {
    TwoTaskNodes(uuid, dagre, now, parseDate);
    TwoTaskConnections(uuid, dagre, now, parseDate);
  }

  /**
   * The end-to-end scenario: two tasks A and B and one connection a -> b give
   * a board "T" with two nodes and one connection from A's id to B's id.
   */
  lemma TwoTaskScenario(uuid: Uuid, dagre: Dagre, now: Instant, parseDate: string -> Instant)
    requires Fresh(uuid)
    ensures var a := AINode("a", "A", Some(Task), "", None, "");
      var b := AINode("b", "B", Some(Task), "", None, "");
      var p := Parsed(PlanDoc("T", Some([a, b]), ConnectionList([AIConnection("a", "b", None)])));
      var r := ParseAndLayoutPlan(p, uuid, dagre, now, parseDate);
      && r.Success? && r.value.boardName == "T" && |r.value.nodes| == 2 && |r.value.connections| == 1
      && r.value.nodes[0].content == "A" && r.value.nodes[1].content == "B"
      && r.value.connections[0].source == r.value.nodes[0].id
      && r.value.connections[0].target == r.value.nodes[1].id
      && r.value.nodes[0].id != r.value.nodes[1].id
  {
    var plan := TwoTaskPlan();
    var p := Parsed(PlanDoc("T", Some(plan.nodes), plan.connections));
    assert Validate(p) == Success(plan);
    TwoTaskHydration(uuid, dagre, now, parseDate);
  }
}
