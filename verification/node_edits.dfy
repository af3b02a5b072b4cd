/**
 * Edits made from inside a node on the canvas: the data merge every node
 * component uses, the task-card handlers (blur, Enter, date, status), the
 * heading and section title commits with their change guards, and the
 * handles and display defaults each component shows.
 */
module NodeEdits {
  import opened Wrappers
  import opened Types
  import opened Flow

  /** The keys of a node's data that the node components write. */
  datatype NodePatch = NodePatch(content: Option<string>, dateTime: Option<Instant>, status: Option<NodeStatus>)

  function ContentPatch(text: string): NodePatch {
    NodePatch(Some(text), None, None)
  }

  /** `{ ...data, ...updates }`: each key the partial carries overrides, every other key is kept. */
  function MergeData(d: AppNode, p: NodePatch): (r: AppNode)
    ensures p.content.Some? ==> r.content == p.content.value
    ensures p.content.None? ==> r.content == d.content
    ensures p.dateTime.Some? ==> r.dateTime == p.dateTime
    ensures p.dateTime.None? ==> r.dateTime == d.dateTime
    ensures p.status.Some? ==> r.status == p.status
    ensures p.status.None? ==> r.status == d.status
    ensures r.(content := d.content, dateTime := d.dateTime, status := d.status) == d
  {
    d.(content := p.content.GetOr(d.content), dateTime := if p.dateTime.Some? then p.dateTime else d.dateTime,
       status := if p.status.Some? then p.status else d.status)
  }

  /**
   * `updateNodeData`: merges the partial into the data of the nodes under
   * `id`; every other node, and every other field, is untouched.
   */
  function UpdateNodeData(nodes: seq<FlowNode<AppNode>>, id: string, p: NodePatch): (r: seq<FlowNode<AppNode>>)
    ensures |r| == |nodes|
    ensures forall i :: 0 <= i < |nodes| && nodes[i].id != id ==> r[i] == nodes[i]
    ensures forall i :: 0 <= i < |nodes| && nodes[i].id == id ==>
      && r[i].(data := nodes[i].data) == nodes[i]
      && r[i].data.content == p.content.GetOr(nodes[i].data.content)
      && r[i].data.dateTime == (if p.dateTime.Some? then p.dateTime else nodes[i].data.dateTime)
      && r[i].data.status == (if p.status.Some? then p.status else nodes[i].data.status)
      && r[i].data.(content := nodes[i].data.content, dateTime := nodes[i].data.dateTime,
                    status := nodes[i].data.status) == nodes[i].data
  {
    seq(|nodes|, i requires 0 <= i < |nodes| =>
      if nodes[i].id == id then nodes[i].(data := MergeData(nodes[i].data, p)) else nodes[i])
  }

  /** Applying the same partial twice is applying it once; the empty partial changes nothing. */
  lemma UpdateNodeDataLaws(nodes: seq<FlowNode<AppNode>>, id: string, p: NodePatch)
    ensures UpdateNodeData(UpdateNodeData(nodes, id, p), id, p) == UpdateNodeData(nodes, id, p)
    ensures UpdateNodeData(nodes, id, NodePatch(None, None, None)) == nodes
  {
    var once := UpdateNodeData(nodes, id, p);
    assert UpdateNodeData(once, id, p) == once;
    assert UpdateNodeData(nodes, id, NodePatch(None, None, None)) == nodes;
  }

  /** A task card's local editing state: the edit flag and the draft text. */
  datatype Card = Card(isEditing: bool, draft: string)

  /** The card a node renders with: not editing, the draft seeded from the content. */
  function InitialCard(d: AppNode): Card {
    Card(false, d.content)
  }

  /** `handleBlur`: leaves edit mode and writes the draft, whether or not it changed. */
  function CardBlur(nodes: seq<FlowNode<AppNode>>, id: string, card: Card): (r: (seq<FlowNode<AppNode>>, Card))
    ensures !r.1.isEditing && r.1.draft == card.draft
    ensures r.0 == UpdateNodeData(nodes, id, ContentPatch(card.draft))
  {
    (UpdateNodeData(nodes, id, ContentPatch(card.draft)), card.(isEditing := false))
  }

  /**
   * The text area's key handler: on a card that is not a detailed node,
   * Enter without Shift commits as a blur does; every other key, and every
   * key on a detailed node, leaves the state alone.
   */
  function CardKeyDown(kind: NodeType, key: string, shift: bool, nodes: seq<FlowNode<AppNode>>, id: string, card: Card)
    : (r: (seq<FlowNode<AppNode>>, Card))
    ensures kind != Detailed && key == "Enter" && !shift ==> r == CardBlur(nodes, id, card)
    ensures kind == Detailed || key != "Enter" || shift ==> r == (nodes, card)
  {
    if kind != Detailed && key == "Enter" && !shift then CardBlur(nodes, id, card) else (nodes, card)
  }

  /** `handleDateSelect`: picking a date writes it; clearing the pick writes nothing. */
  function DateSelect(nodes: seq<FlowNode<AppNode>>, id: string, date: Option<Instant>): (r: seq<FlowNode<AppNode>>)
    ensures date.None? ==> r == nodes
    ensures date.Some? ==> r == UpdateNodeData(nodes, id, NodePatch(None, date, None))
  {
    if date.Some? then UpdateNodeData(nodes, id, NodePatch(None, date, None)) else nodes
  }

  /** `handleStatusChange`: the chosen status lands on the node, and nothing else changes. */
  function StatusChange(nodes: seq<FlowNode<AppNode>>, id: string, status: NodeStatus): (r: seq<FlowNode<AppNode>>)
    ensures |r| == |nodes|
    ensures forall i :: 0 <= i < |nodes| && nodes[i].id == id ==>
      r[i].data.status == Some(status) && r[i].data.(status := nodes[i].data.status) == nodes[i].data
    ensures forall i :: 0 <= i < |nodes| && nodes[i].id != id ==> r[i] == nodes[i]
  {
    UpdateNodeData(nodes, id, NodePatch(None, None, Some(status)))
  }

  /** Whether a handle starts or ends a connection. */
  datatype HandleRole = Source | Target

  datatype Handle = Handle(role: HandleRole, side: Side, id: string)

  /** The task card's eight handles: a target and a source on each side. */
  const CardHandles: set<Handle> := {
    Handle(Target, Top, "top"), Handle(Source, Top, "top-source"),
    Handle(Target, Right, "right"), Handle(Source, Right, "right-source"),
    Handle(Target, Bottom, "bottom"), Handle(Source, Bottom, "bottom-source"),
    Handle(Target, Left, "left"), Handle(Source, Left, "left-source")}

  /** A heading's two handles. */
  const HeadingHandles: set<Handle> := {Handle(Target, Top, "top"), Handle(Source, Bottom, "bottom-source")}

  /** A section renders no handles at all. */
  const SectionHandles: set<Handle> := {}

  /** The handles the component for a node kind renders. */
  function HandlesOf(kind: NodeType): set<Handle> {
    match kind
    case Heading => HeadingHandles
    case Section => SectionHandles
    case _ => CardHandles
  }

  /** A kind's node has a handle with this role and id. */
  predicate HasHandle(kind: NodeType, role: HandleRole, id: string) {
    exists h :: h in HandlesOf(kind) && h.role == role && h.id == id
  }

  /**
   * The handles imported connections name (`bottom-source` out of the
   * source, `top` into the target) exist on every kind except a section,
   * which has none.
   */
  lemma ImportedHandlesExist(kind: NodeType)
    ensures kind != Section <==> HasHandle(kind, Source, "bottom-source") && HasHandle(kind, Target, "top")
  {
    if kind == Heading {
      assert Handle(Source, Bottom, "bottom-source") in HandlesOf(kind);
      assert Handle(Target, Top, "top") in HandlesOf(kind);
    } else if kind != Section {
      assert Handle(Source, Bottom, "bottom-source") in HandlesOf(kind);
      assert Handle(Target, Top, "top") in HandlesOf(kind);
    }
  }

  /** The task card has eight handles, no two sharing an id. */
  lemma CardHandleCount()
    ensures |CardHandles| == 8
    ensures forall h1, h2 :: h1 in CardHandles && h2 in CardHandles && h1.id == h2.id ==> h1 == h2
  {
  }

  /** A task's status as shown: an absent status reads as to-do. */
  function ShownStatus(d: AppNode): (s: NodeStatus)
    ensures d.status.Some? ==> s == d.status.value
    ensures d.status.None? ==> s == Todo
  {
    d.status.GetOr(Todo)
  }

  /** `fontSize || fallback`: an absent or zero size reads as the fallback. */
  function FontSizeOr(d: AppNode, fallback: int): (n: int)
    ensures d.fontSize.Some? && d.fontSize.value != 0 ==> n == d.fontSize.value
    ensures d.fontSize.None? || d.fontSize == Some(0) ==> n == fallback
  {
    if d.fontSize.Some? && d.fontSize.value != 0 then d.fontSize.value else fallback
  }

  const CardFontSize: int := 14
  const HeadingFontSize: int := 30

  /** `content || fallback`: the title a heading or section shows. */
  function TitleOr(content: string, fallback: string): (t: string)
    ensures content != "" ==> t == content
    ensures content == "" ==> t == fallback
  {
    if content != "" then content else fallback
  }

  const HeadingFallback: string := "Heading"
  const SectionFallback: string := "Section"

  /**
   * The heading and section blur: commits the title only when it differs
   * from the stored content (`updateContent` replaces `content` and keeps
   * every other data field).
   */
  function CommitTitle(nodes: seq<FlowNode<AppNode>>, id: string, d: AppNode, text: string): (r: seq<FlowNode<AppNode>>)
    ensures text == d.content ==> r == nodes
    ensures text != d.content ==> r == UpdateNodeData(nodes, id, ContentPatch(text))
  {
    if text != d.content then UpdateNodeData(nodes, id, ContentPatch(text)) else nodes
  }

  /** A heading's local state: the edit flag and the title being typed. */
  datatype HeadingEditor = HeadingEditor(isEditing: bool, text: string)

  function InitialHeading(d: AppNode): HeadingEditor {
    HeadingEditor(false, TitleOr(d.content, HeadingFallback))
  }

  /** The heading's blur: leaves edit mode, then commits under the change guard. */
  function HeadingBlur(nodes: seq<FlowNode<AppNode>>, id: string, d: AppNode, h: HeadingEditor)
    : (r: (seq<FlowNode<AppNode>>, HeadingEditor))
    ensures !r.1.isEditing && r.1.text == h.text
    ensures r.0 == CommitTitle(nodes, id, d, h.text)
  {
    (CommitTitle(nodes, id, d, h.text), h.(isEditing := false))
  }

  /** The heading input's key handler: Enter (with or without Shift) blurs. */
  function HeadingKeyDown(key: string, nodes: seq<FlowNode<AppNode>>, id: string, d: AppNode, h: HeadingEditor)
    : (r: (seq<FlowNode<AppNode>>, HeadingEditor))
    ensures key == "Enter" ==> r == HeadingBlur(nodes, id, d, h)
    ensures key != "Enter" ==> r == (nodes, h)
  {
    if key == "Enter" then HeadingBlur(nodes, id, d, h) else (nodes, h)
  }

  /**
   * Opening and closing a heading without typing writes nothing when it has
   * content, but writes "Heading" into an empty one: the shown fallback
   * differs from the stored empty content.
   */
  lemma UntouchedHeadingBlur(nodes: seq<FlowNode<AppNode>>, k: int)
    requires 0 <= k < |nodes|
    ensures var d := nodes[k].data;
      var r := HeadingBlur(nodes, nodes[k].id, d, InitialHeading(d).(isEditing := true)).0;
      && (d.content != "" ==> r == nodes)
      && (d.content == "" ==> r[k].data.content == HeadingFallback && r[k].data == d.(content := HeadingFallback))
  {
  }

  /** A section's title as first shown. */
  function InitialSectionLabel(d: AppNode): string {
    TitleOr(d.content, SectionFallback)
  }

  /** The section's blur: commits under the change guard (Enter blurs the input, so it commits the same way). */
  function SectionBlur(nodes: seq<FlowNode<AppNode>>, id: string, d: AppNode, title: string): (r: seq<FlowNode<AppNode>>)
    ensures title == d.content ==> r == nodes
    ensures title != d.content ==> |r| == |nodes| && forall i :: 0 <= i < |nodes| ==>
      r[i] == (if nodes[i].id == id then nodes[i].(data := nodes[i].data.(content := title)) else nodes[i])
  {
    CommitTitle(nodes, id, d, title)
  }

  /** An untouched section with content writes nothing; an empty one gets "Section". */
  lemma UntouchedSectionBlur(nodes: seq<FlowNode<AppNode>>, k: int)
    requires 0 <= k < |nodes|
    ensures var d := nodes[k].data;
      var r := SectionBlur(nodes, nodes[k].id, d, InitialSectionLabel(d));
      && (d.content != "" ==> r == nodes)
      && (d.content == "" ==> r[k].data == d.(content := SectionFallback))
  {
  }

  /** A section's background: its border colour with the "10" alpha suffix, or none without one. */
  function SectionBackground(d: AppNode): (c: Option<string>)
    ensures c.None? <==> d.borderColor == ""
    ensures c.Some? ==> |c.value| == |d.borderColor| + 2 && c.value[..|d.borderColor|] == d.borderColor && c.value[|d.borderColor|..] == "10"
  {
    if d.borderColor != "" then Some(d.borderColor + "10") else None
  }
}
