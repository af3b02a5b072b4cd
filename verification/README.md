# mindnode core, modelled in Dafny

mindnode is a canvas planning app: boards hold task, note, milestone,
decision, detailed, heading and section nodes joined by connections. This
project models the parts of it that are data transformations rather than
rendering, as pure functions over immutable datatypes, and proves what they
promise:

- **AI plan import** (`Importer`, `ImportDialog`). The dialog strips Markdown
  fences from the pasted text. The importer validates the parsed value and
  maps logical ids to fresh ids. It drops connections whose ends do not
  resolve, lays the nodes out and hydrates them with their defaults. The
  store is written only after all of that succeeded.
- **Layout wrapper** (`Layout`). It covers the size fallback chain, the
  graph handed to dagre, the centre-to-corner shift and the handle sides.
  dagre itself is an oracle from the graph to a centre per id.
- **Board store** (`BoardStore`). A state-transition function on the boards,
  the active board id and the app settings. It covers create, delete,
  update (shallow merge with a forced `updatedAt`), duplicate, toggle star
  and set active.
- **Canvas edits** (`BoardView`, `NodeEdits`, `Legend`, `PasswordPrompt`):
  - the store↔canvas mapping with its save-time defaults, and the auto-save
    guard;
  - splitting an edge with a new node at its midpoint;
  - recolouring the selected nodes;
  - the per-node data merges of task, heading and section nodes, with their
    handle sets and display fallbacks;
  - legend relabelling;
  - the password unlock state machine.
- **Projections** (`Dashboard`, `Analytics`, `TaskViews`, `Calendar`,
  `Timeline`):
  - the dashboard search and its starred-first order;
  - status counts and rounded percentages;
  - the calendar's per-day counts and date-ordered list;
  - the timeline's order and marker colours.

Shared pieces:

- `Wrappers` holds `Option` and `Result`.
- `Collections` holds find, filter and count over sequences, and a last-wins
  map.
- `Text` holds JavaScript white space, `trim`, prefix and suffix tests,
  `includes` and ASCII lower-casing.
- `Types` holds the record shapes and closed enumerations of
  `src/types/index.ts`.
- `Flow` holds the canvas library's node and edge shapes.

Things outside the model become parameters:

- the JSON parser (`parse: string -> ParseOutcome`);
- the id supply (`uuid: nat -> string`, or an explicit fresh id);
- the clocks (`now`);
- dagre (`Dagre`);
- date parsing, day keys, `isPast`, `isToday` and date formatting.

A few behaviours of the code are easy to miss, and the model states them:

- The importer's 400×300 and 250×80 size hints sit on fields the layout
  never reads. Every imported node is laid out as 172×50
  (`Importer.ImportGraphIgnoresSizeHints`).
- A logical id listed twice gives both nodes the id generated last. Both
  nodes then take their content from the first of them
  (`Importer.ImportedNodeSource`).
- Section nodes have no handles, so an imported connection to or from a
  section has nothing to attach to (`NodeEdits.ImportedHandlesExist`).
- Every error the importer raises carries a message, so "Failed to parse
  plan" never shows (`ImportDialog.ImportErrorsHaveMessages`).
- Auto-save drops connection labels and writes empty handles as `top`
  (`BoardView.EdgeRoundTrip`).
- Blurring a heading or section whose content is empty writes "Heading" or
  "Section" into it (`NodeEdits.UntouchedHeadingBlur`,
  `NodeEdits.UntouchedSectionBlur`).
- Saving an empty share password unlocks the board at once and on every
  later load (`BoardView.EmptyPasswordUnlocks`).

## Model

| member | source | states |
|---|---|---|
| Types.ParseNodeType | src/types/index.ts:1 | the node kinds are exactly the seven spellings: parsing inverts naming and rejects every other string |
| Types.ParseNodeStatus | src/types/index.ts:2 | the statuses are exactly todo, in-progress and complete: parsing inverts naming and rejects every other string |
| Types.ParseConnectionStyle | src/types/index.ts:3 | the connection styles are exactly bezier, straight and orthogonal: parsing inverts naming and rejects every other string |
| Importer.Validate | src/lib/ai-importer.ts:76-84 | text the parser rejects fails with the invalid-JSON error, and only it does; a `null` value fails with the runtime TypeError; a value without a `nodes` array fails with the invalid-structure error; every other value passes, carrying its title, nodes and connections |
| Importer.IdMap | src/lib/ai-importer.ts:87-90 | the map's keys are exactly the listed logical ids, and a logical id keeps the id generated for its last occurrence |
| Importer.KeptEdges | src/lib/ai-importer.ts:102-112 | one layout edge per connection whose two ends both resolve |
| Importer.Resolve | src/lib/ai-importer.ts:103-105 | a connection resolves iff both its ends are mapped to non-empty ids, and then to exactly those two ids |
| Importer.Content | src/lib/ai-importer.ts:128-137 | a detailed node with non-empty details shows the details; otherwise the label; otherwise "Untitled" |
| Importer.HydrateNode | src/lib/ai-importer.ts:125-145 | type defaults to task, border to #000000, font size is 30 for headings and 14 otherwise, status defaults to todo for every kind, a date is parsed only when present, and both timestamps are now |
| Importer.Original | src/lib/ai-importer.ts:123 | the plan node found for a laid-out id is the first one whose mapped id is that id; the fallback stands for the case none is |
| Importer.HydrateConnections | src/lib/ai-importer.ts:149-163 | one connection per resolving plan connection, in order, each the hydration of a plan connection and carrying the next fresh id |
| Importer.LaidOut | src/lib/ai-importer.ts:93-119 | layout returns one node per plan node, carrying that plan node's mapped id |
| Importer.HydrateNodes | src/lib/ai-importer.ts:122-146 | one app node per laid-out node, keeping its id and position and taking every other field from the plan node found for that id |
| Importer.Hydrate | src/lib/ai-importer.ts:122-169 | one node per plan node in plan order under its mapped id; the kept connections; the title as board name, or "Imported Plan" when it is empty |
| Importer.ParseAndLayoutPlan | src/lib/ai-importer.ts:70-170 | on the values the model can represent (every listed node and connection an object with string ids): fails exactly when validation fails (with the same error), or with a TypeError when `connections` is truthy but not an array; otherwise returns the hydrated plan |
| Importer.ImportGraphIgnoresSizeHints | src/lib/ai-importer.ts:93-99 | the importer's size hints never reach dagre: the graph is top-to-bottom with spacing 100/80, and every vertex is 172×50 |
| Importer.LaidOutPositions | src/lib/ai-importer.ts:115-119 | each laid-out plan node sits at dagre's centre for its id, shifted by half of 172×50 |
| Importer.ImportedPositions | src/lib/ai-importer.ts:138 | each imported node's position is dagre's centre for its id, shifted by half of 172×50 |
| Importer.ImportedNodeSource | src/lib/ai-importer.ts:122-141 | with fresh ids, the node at position i takes its fields from the first plan node sharing its logical id, and every plan node with that logical id gets the same id |
| Importer.ImportedNodeIsOwnPlanNode | src/lib/ai-importer.ts:122-146 | with distinct logical ids, imported node i is the hydration of plan node i |
| Importer.HydratedConnectionEnds | src/lib/ai-importer.ts:149-157 | each hydrated connection joins the mapped ids of two listed logical ids |
| Importer.ImportedConnectionsJoinImportedNodes | src/lib/ai-importer.ts:149-163 | every imported connection joins two imported nodes, leaves from bottom-source, enters at top and is a bezier |
| Importer.KeptIffListed | src/lib/ai-importer.ts:102-112 | with fresh ids, a connection resolves iff both its ends are listed logical ids |
| Importer.ImportedConnectionCount | src/lib/ai-importer.ts:149-152 | the number of imported connections is the number whose ends are both listed; an absent `connections` field yields none |
| Importer.TwoTaskScenario | src/lib/ai-importer.ts:70-170 | a plan with tasks a and b and one connection a→b imports as a board named after its title, with nodes A then B under distinct ids and one connection from A's id to B's id |
| Layout.NodeSize | src/lib/layout.ts:20-21 | width is the truthy measured width, else the truthy payload width, else 172; height is the truthy measured height, else 50 |
| Layout.SizeIgnoresOwnDimensions | src/lib/layout.ts:20-21 | a node's own top-level width and height never change the size it registers |
| Layout.BuildGraph | src/lib/layout.ts:11-28 | rankdir is the direction with ranksep 100 and nodesep 80; there is one vertex per distinct id, sized by the last node with that id; every edge is added in order |
| Layout.HandleSides | src/lib/layout.ts:36-37 | LR gives target Left and source Right; every other direction gives Top and Bottom |
| Layout.SidesAreOpposite | src/lib/layout.ts:36-37 | whatever the direction, edges leave from the side opposite the one they enter |
| Layout.GetLayoutedElements | src/lib/layout.ts:32-49 | one output node per input node, in order, each unchanged except for its placement; the placement is dagre's centre minus half the registered size; the edges come back unchanged |
| Layout.DistinctIdsUseOwnSize | src/lib/layout.ts:40-43 | with distinct ids, each node is shifted by half of its own size |
| Layout.SharedIdSharesPosition | src/lib/layout.ts:17-23 | two nodes sharing an id land on the same point |
| BoardStore.CreateBoard | src/store/useBoardStore.ts:53-75 | it returns the new id and appends exactly one board, leaving the others in place. The board has the given name and description, is unstarred, holds no nodes or connections, has the default glossary with useGlobal and the default settings, and carries `now` twice. It becomes the active board |
| BoardStore.DeleteBoard | src/store/useBoardStore.ts:77-82 | the remaining boards are exactly the old ones with another id, and no board with the id is left; the active board id is cleared only when it named that id |
| BoardStore.DeleteKeepsOrder | src/store/useBoardStore.ts:79 | deletion commutes with splitting the list, so the survivors keep their order |
| BoardStore.DeleteAbsentKeepsBoards | src/store/useBoardStore.ts:79 | deleting an id no board has leaves the list unchanged |
| BoardStore.MergeLaws | src/store/useBoardStore.ts:87 | merging the empty partial is the identity, and merging the same partial twice equals merging it once |
| BoardStore.UpdateBoard | src/store/useBoardStore.ts:84-90 | boards with the id become the shallow merge with `updatedAt` forced to now, even if the partial supplies one; other boards, their order, the active board id and the settings are unchanged; an unknown id leaves the state unchanged |
| BoardStore.UpdateTwice | src/store/useBoardStore.ts:84-90 | updating twice with the same partial equals the second update alone |
| BoardStore.DuplicateBoard | src/store/useBoardStore.ts:92-103 | an unknown id changes nothing; otherwise a copy of the first matching board is appended with the new id, " (Copy)" appended to its name and new timestamps, and everything else shared; the active board id is untouched |
| BoardStore.SetActiveBoard | src/store/useBoardStore.ts:105 | the active board id takes any value, existing board or not, and nothing else changes |
| BoardStore.ToggleStarBoard | src/store/useBoardStore.ts:107-113 | only matching boards flip `starred`, and their `updatedAt` stays |
| BoardStore.ToggleStarTwice | src/store/useBoardStore.ts:107-113 | toggling twice is the identity |
| BoardStore.CreateThenDelete | src/store/useBoardStore.ts:53-82 | deleting a just-created board restores the boards and leaves no active board |
| BoardStore.CreateThenRename | src/store/useBoardStore.ts:53-90 | for any description, renaming a just-created board leaves the other boards in place and yields the new board with the new name and `updatedAt` the rename time, everything else as created; the board stays active |
| ImportDialog.Sanitise | src/components/dashboard/AIImportDialog.tsx:37-41 | the sanitised text neither starts nor ends with white space |
| Text.Trim | src/components/dashboard/AIImportDialog.tsx:41 | the result has no white space at either end, and it is empty iff the text is all white space |
| Text.TrimDropsSurroundingSpace | src/components/dashboard/AIImportDialog.tsx:41 | white space before and after a text with no white space at either end is exactly what trimming removes |
| ImportDialog.StripJsonFence | src/components/dashboard/AIImportDialog.tsx:38 | a leading json fence goes together with the white space after it; text without it is unchanged; the result is always a suffix of the input |
| ImportDialog.StripFence | src/components/dashboard/AIImportDialog.tsx:39 | a leading bare fence goes together with the white space after it; text without it is unchanged; the result is always a suffix of the input |
| ImportDialog.StripClosingFence | src/components/dashboard/AIImportDialog.tsx:40 | a closing fence that ends the text goes together with all white space before it; text without it is unchanged; the result is always a prefix of the input |
| ImportDialog.NoFenceOnlyTrims | src/components/dashboard/AIImportDialog.tsx:37-41 | text that neither starts nor ends with a fence is only trimmed |
| ImportDialog.LeadingSpaceKeepsOpeningFence | src/components/dashboard/AIImportDialog.tsx:38-39 | an opening fence after leading white space is not stripped, and the result still starts with it |
| ImportDialog.TrailingSpaceKeepsClosingFence | src/components/dashboard/AIImportDialog.tsx:40 | when the text ends in white space, the closing-fence strip does nothing |
| ImportDialog.OtherTagSurvives | src/components/dashboard/AIImportDialog.tsx:38-39 | a fence tag other than `json` is left as leading text once the bare fence is gone |
| ImportDialog.FencedBodyRoundTrip | src/components/dashboard/AIImportDialog.tsx:37-41 | a body with no white space at either end and not itself opening with a fence, wrapped in a json fence on lines of its own comes back exactly |
| ImportDialog.ImportEnabledIffContent | src/components/dashboard/AIImportDialog.tsx:116 | import is enabled iff the text holds a non-white-space character |
| ImportDialog.ShownError | src/components/dashboard/AIImportDialog.tsx:52 | the shown error is never empty, and it is the thrown message whenever that is non-empty |
| ImportDialog.ImportErrorsHaveMessages | src/components/dashboard/AIImportDialog.tsx:51-53 | every importer failure carries a message, so the shown error is the thrown message |
| ImportDialog.WriteImport | src/components/dashboard/AIImportDialog.tsx:46-47 | the existing boards stay and exactly one board is appended. It is named after the plan, described "Imported from AI Plan", holds the imported nodes and connections, and is active |
| ImportDialog.HandleImport | src/components/dashboard/AIImportDialog.tsx:33-54 | on failure the store is untouched and the error is shown; on success the board is written, the error cleared, the dialog closed and the app sent to the board |
| BoardView.OpenBoard | src/components/canvas/BoardView.tsx:91 | a board is found iff the route has an id that some board carries, and the one found is the first board listed with that id |
| BoardView.InitiallyUnlocked | src/components/canvas/BoardView.tsx:97-102 | a board opens unlocked iff its password is absent or empty |
| BoardView.InitialSharePassword | src/components/canvas/BoardView.tsx:100 | the share field starts with the board's password, or empty |
| BoardView.LoadNode | src/components/canvas/BoardView.tsx:110-116 | a canvas node has the stored node's id, type and position with the node as payload; only detailed nodes get the 400×300 box |
| BoardView.LoadEdge | src/components/canvas/BoardView.tsx:119-127 | a canvas edge has the connection's id, ends, handles and style |
| BoardView.Load | src/components/canvas/BoardView.tsx:108-129 | one canvas node per stored node and one edge per connection, in order; the edge menu is left as it was |
| BoardView.SaveNode | src/components/canvas/BoardView.tsx:138-144 | the saved node is the payload with the canvas id and position, and the border colour defaults to #000000, so it is never empty |
| BoardView.SaveEdge | src/components/canvas/BoardView.tsx:146-153 | missing or empty handles save as top, a missing style as bezier, and the label is dropped |
| BoardView.SavedContent | src/components/canvas/BoardView.tsx:138-158 | the auto-save partial holds exactly the saved nodes and edges, in order, and nothing else |
| BoardView.AutoSave | src/components/canvas/BoardView.tsx:133-158 | nothing is written without a board id or with zero nodes; otherwise the store receives the saved content through the board update |
| BoardView.EdgeRoundTrip | src/components/canvas/BoardView.tsx:119-153 | loading then saving keeps a connection iff its handles are non-empty, it has no label and it has a style |
| BoardView.NodeRoundTrip | src/components/canvas/BoardView.tsx:110-144 | loading then saving keeps a node iff its border colour is non-empty |
| BoardView.SaveAfterLoad | src/components/canvas/BoardView.tsx:108-158 | when every stored node has a non-empty border colour, saving a freshly loaded board writes back its own nodes |
| BoardView.InsertedNode | src/components/canvas/BoardView.tsx:209-225 | the new node has the fresh id, the chosen type, the midpoint, content "New <type>", the default border, no status or date, and both timestamps now |
| BoardView.SplitEdges | src/components/canvas/BoardView.tsx:228-231 | the new edge list is the old edges without the clicked id, in their order, followed by the edge from the old source to the new node and the edge from it to the old target |
| BoardView.InsertNodeOnEdge | src/components/canvas/BoardView.tsx:194-236 | nothing changes without a menu, a matching edge or both end nodes; otherwise every edge under the clicked id is removed and the survivors keep their order and multiplicity, the node is appended at the midpoint of the end positions, the two new edges follow the survivors, and the menu closes |
| BoardView.InsertionReroutes | src/components/canvas/BoardView.tsx:228-233 | after insertion, no edge keeps the clicked edge's id, the new node is appended, and edges run from the old source to it and from it to the old target |
| BoardView.RecolourSelected | src/components/canvas/BoardView.tsx:238-254 | selected nodes get the colour and keep every other field; unselected nodes are untouched |
| BoardView.RecolourThenSave | src/components/canvas/BoardView.tsx:238-254 | recolouring is idempotent, and a selected node is saved with the chosen colour |
| BoardView.UpdateSecurity | src/components/canvas/BoardView.tsx:256-262 | without a board id nothing happens; otherwise the typed password is written verbatim and the share dialog closes |
| BoardView.EmptyPasswordUnlocks | src/components/canvas/BoardView.tsx:256-260 | saving an empty password unlocks the board at once and on every later load |
| BoardView.PasswordLocks | src/components/canvas/BoardView.tsx:256-260 | saving a non-empty password locks the board at once and on every later load, and the share field offers it back |
| NodeEdits.UpdateNodeData | src/components/canvas/CustomNode.tsx:29-44 | only the nodes with the id change, and in them only the fields the patch names |
| NodeEdits.MergeData | src/components/canvas/CustomNode.tsx:35-38 | each field the patch supplies overrides the stored one, each it leaves out is kept, and no other field changes |
| NodeEdits.UpdateNodeDataLaws | src/components/canvas/CustomNode.tsx:29-44 | merging twice equals merging once, and the empty patch is the identity |
| NodeEdits.CardBlur | src/components/canvas/CustomNode.tsx:46-49 | blur leaves edit mode and always writes the draft as content |
| NodeEdits.CardKeyDown | src/components/canvas/CustomNode.tsx:51-56 | Enter without Shift commits as blur does, except on detailed nodes; every other key changes nothing |
| NodeEdits.DateSelect | src/components/canvas/CustomNode.tsx:58-62 | no date leaves the nodes unchanged; a date is written into this node only |
| NodeEdits.StatusChange | src/components/canvas/CustomNode.tsx:64-66 | the chosen status is written into this node only |
| NodeEdits.ImportedHandlesExist | src/components/canvas/CustomNode.tsx:95-145 | the handles an imported connection names (source bottom-source, target top) exist on every kind except a section |
| NodeEdits.CardHandleCount | src/components/canvas/CustomNode.tsx:95-145 | a card has eight handles with pairwise distinct ids |
| NodeEdits.ShownStatus | src/components/canvas/CustomNode.tsx:168 | an absent status shows as todo |
| NodeEdits.FontSizeOr | src/components/canvas/CustomNode.tsx:205 | an absent or zero font size falls back to the default |
| NodeEdits.TitleOr | src/components/canvas/HeadingNode.tsx:14 | empty content shows the fallback title |
| NodeEdits.CommitTitle | src/components/canvas/HeadingNode.tsx:37-42 | the title is written only when it differs from the stored content |
| NodeEdits.HeadingBlur | src/components/canvas/HeadingNode.tsx:37-42 | blur leaves edit mode and commits under the change guard |
| NodeEdits.HeadingKeyDown | src/components/canvas/HeadingNode.tsx:67-69 | Enter commits as blur does; other keys change nothing |
| NodeEdits.UntouchedHeadingBlur | src/components/canvas/HeadingNode.tsx:14-42 | blurring an untouched heading writes nothing, unless its content is empty, when "Heading" is written |
| NodeEdits.UntouchedSectionBlur | src/components/canvas/SectionNode.tsx:13-40 | blurring an untouched section writes nothing, unless its content is empty, when "Section" is written |
| NodeEdits.SectionBlur | src/components/canvas/SectionNode.tsx:36-40 | an unchanged title writes nothing; a changed one becomes the content of the nodes with the id, all else unchanged |
| NodeEdits.SectionBackground | src/components/canvas/SectionNode.tsx:52 | there is a background iff a border colour is set, and it is that colour followed by "10" |
| Legend.PanelBoard | src/components/canvas/LegendPanel.tsx:18-19 | the panel shows nothing iff no board has the id; otherwise it shows the first board listed with that id |
| Legend.StartEditing | src/components/canvas/LegendPanel.tsx:34-37 | editing starts on the colour, seeded with its current label |
| Legend.Relabel | src/components/canvas/LegendPanel.tsx:24-29 | the colour gets the typed label, every other entry keeps its label, the keys grow by at most that colour, and useGlobal is kept |
| Legend.SaveLabel | src/components/canvas/LegendPanel.tsx:23-32 | an unknown board changes nothing; otherwise the relabelled glossary is written through the board update and editing ends |
| Legend.LabelKeyDown | src/components/canvas/LegendPanel.tsx:73 | Enter saves; other keys change nothing |
| Legend.EditThenSave | src/components/canvas/LegendPanel.tsx:23-37 | after an edit and a save, the board's glossary maps the colour to the typed label and keeps the other labels and useGlobal; nothing else on the board changes except `updatedAt` |
| PasswordPrompt.Submit | src/components/canvas/PasswordPrompt.tsx:16-24 | submit unlocks iff the typed text equals the stored password; a mismatch sets the error and clears the field |
| PasswordPrompt.Edit | src/components/canvas/PasswordPrompt.tsx:42-45 | any edit takes the text and clears the error |
| PasswordPrompt.NoPasswordNeverUnlocks | src/components/canvas/PasswordPrompt.tsx:18 | with no stored password, no text unlocks |
| PasswordPrompt.TypeAndSubmit | src/components/canvas/PasswordPrompt.tsx:16-45 | typing then submitting unlocks iff the text is right; after a miss, typing the right text clears the error and unlocks |
| Dashboard.StarredFirstPermutes | src/components/dashboard/Dashboard.tsx:25 | the starred-first order is a permutation of the filtered boards |
| Dashboard.Matches | src/components/dashboard/Dashboard.tsx:23-24 | an empty term matches every board |
| Dashboard.FilteredBoards | src/components/dashboard/Dashboard.tsx:22-25 | the listed boards are, counted with multiplicity, exactly the matching boards |
| Dashboard.StarredFirstOrdered | src/components/dashboard/Dashboard.tsx:25 | exactly the first (number of starred) positions hold starred boards |
| Dashboard.StarredFirstStable | src/components/dashboard/Dashboard.tsx:25 | within the starred group and within the unstarred group, the input order is kept |
| Dashboard.EmptyTermKeepsAll | src/components/dashboard/Dashboard.tsx:22-24 | an empty search keeps every board |
| Dashboard.ListedIffMatches | src/components/dashboard/Dashboard.tsx:22-24 | a board is listed iff its lower-cased name contains the lower-cased term, or its description is present and contains it |
| Dashboard.HandleCreate | src/components/dashboard/Dashboard.tsx:27-34 | a name that trims to empty changes nothing; otherwise the untrimmed name and description go to createBoard, the form is cleared and closed, and the app goes to the new board |
| Dashboard.CreateGuard | src/components/dashboard/Dashboard.tsx:28 | create adds a board iff the name holds a non-white-space character |
| Analytics.CountsOf | src/components/canvas/AnalyticsPanel.tsx:21-25 | the total is the number of task nodes, and the completed, in-progress and todo counts are the numbers of task nodes with that status, each at most the total |
| Analytics.CountAmongTasks | src/components/canvas/AnalyticsPanel.tsx:21-25 | counting over all nodes with "a task and p" equals counting p among the tasks |
| Analytics.StatusesPartition | src/components/canvas/AnalyticsPanel.tsx:23-25 | every node is counted in exactly one of complete, in progress and todo (absent status included) |
| Analytics.CountsAddUp | src/components/canvas/AnalyticsPanel.tsx:21-25 | completed plus in progress plus todo is the total |
| Analytics.RoundPercent | src/components/canvas/AnalyticsPanel.tsx:27 | the result is 100·c/t rounded half up: within half a unit of it, between 0 and 100 when c ≤ t, 0 for none and 100 for all |
| Analytics.Percent | src/components/canvas/AnalyticsPanel.tsx:27 | 0 without tasks; otherwise the rounded percentage; always 0..100, 0 when none and 100 when all are complete |
| Analytics.BoardStats | src/components/canvas/AnalyticsPanel.tsx:16-30 | an unknown board gives all zeros; otherwise the counts are the first matching board's, they add up, and progress is the completed share of the total rounded half up, 0 without tasks |
| Analytics.ActiveBoards | src/components/dashboard/AnalyticsDashboard.tsx:27-31 | "all" selects every board; any other value selects the boards with that id, as many as the list holds; a single board is kept iff it has the id |
| Analytics.ActiveBoardsSplit | src/components/dashboard/AnalyticsDashboard.tsx:27-31 | selection distributes over list concatenation, so the selected boards keep their order |
| Analytics.ProgressRows | src/components/dashboard/AnalyticsDashboard.tsx:34-46 | one row per active board, with its name and its completed, in-progress and todo task counts |
| Analytics.StatusDistribution | src/components/dashboard/AnalyticsDashboard.tsx:49-63 | the distribution's totals are the column sums of the progress rows |
| Analytics.CompletedTasksCount | src/components/dashboard/AnalyticsDashboard.tsx:68 | counting nodes that are complete tasks equals counting complete nodes among the tasks |
| Analytics.SumBoardsBound | src/components/dashboard/AnalyticsDashboard.tsx:67-68 | the completed total never exceeds the task total |
| Analytics.Global | src/components/dashboard/AnalyticsDashboard.tsx:65-71 | board and task totals cover all boards, and the completion rate is the completed task total over the task total rounded half up, 0 without tasks |
| Analytics.AllSelectedAgrees | src/components/dashboard/AnalyticsDashboard.tsx:49-71 | with "all" selected, the distribution's completed total equals the headline completed total |
| TaskViews.TagAll | src/components/views/CalendarView.tsx:22-30 | every selected node of every board is collected, tagged with its board; nothing else is collected; the length is the number of selected nodes over all boards |
| TaskViews.TagBoard | src/components/views/CalendarView.tsx:23-29 | a board's selected nodes, each tagged with the board, as many as the board selects |
| TaskViews.TagThenSelect | src/components/views/CalendarView.tsx:23-29 | selecting nodes and then tagging them equals tagging every node and then selecting |
| TaskViews.TagBoardIsFilter | src/components/views/CalendarView.tsx:23-29 | a board's collection is its tagged nodes filtered by the selection, in node order |
| TaskViews.TagAllIsFilter | src/components/views/CalendarView.tsx:22-30 | the whole collection is every board's tagged nodes, board after board, filtered by the selection, so order and multiplicity are kept |
| TaskViews.TagAllAppend | src/components/views/CalendarView.tsx:22-30 | collection distributes over the boards, so board order is kept |
| TaskViews.SortByTime | src/components/views/CalendarView.tsx:77-78 | the sorted list is ascending by date and is a permutation of its input |
| Calendar.TasksWithDates | src/components/views/CalendarView.tsx:21-31 | the calendar's tasks are the dated task nodes of all boards in board then node order, each tagged with its board's name and id, one entry per node |
| Calendar.EmptyIffNoDatedTask | src/components/views/CalendarView.tsx:92 | the empty message shows iff no board has a dated task |
| Calendar.DateMap | src/components/views/CalendarView.tsx:33-42 | the map's days are exactly the days of the dated tasks, and every count is positive |
| Calendar.DateMapCounts | src/components/views/CalendarView.tsx:33-42 | each day's count is the number of dated tasks on that day |
| Calendar.CountsSumToTasks | src/components/views/CalendarView.tsx:33-42 | the per-day counts add up to the number of dated tasks |
| Calendar.DayCountsCoverDatedTasks | src/components/views/CalendarView.tsx:21-42 | the per-day counts add up to the number of dated task nodes over all boards |
| Calendar.HighlightedIffTaskThatDay | src/components/views/CalendarView.tsx:62 | a day is highlighted iff some dated task falls on it |
| Calendar.UpcomingTasks | src/components/views/CalendarView.tsx:77-78 | the list is ascending by date, a permutation of the dated tasks, and holds only dated tasks |
| Timeline.AllTasks | src/components/views/TimelineView.tsx:14-22 | the timeline's tasks are the task nodes of all boards, dated or not, in board then node order, each tagged with its board, one entry per node |
| Timeline.EmptyIffNoTask | src/components/views/TimelineView.tsx:81-82 | the empty message shows iff no board has a task |
| Timeline.AsWrittenNotAntisymmetric | src/components/views/TimelineView.tsx:23-27 | the comparator as written returns 1 both ways for two undated tasks |
| Timeline.Compare | src/components/views/TimelineView.tsx:23-27 | agrees with the written comparator on dated tasks; ranks undated after dated; ties two undated tasks |
| Timeline.CompareAntisymmetric | src/components/views/TimelineView.tsx:23-27 | the corrected comparator flips sign when its sides swap |
| Timeline.CompareTransitive | src/components/views/TimelineView.tsx:23-27 | the corrected comparator is transitive |
| Timeline.TimelineOrder | src/components/views/TimelineView.tsx:23-27 | the order is a permutation, is sorted by the corrected comparator, and puts exactly the dated tasks first |
| Timeline.TimelineTasks | src/components/views/TimelineView.tsx:14-28 | the timeline shows every collected task exactly once |
| Timeline.EntryOf | src/components/views/TimelineView.tsx:43-67 | the marker is green iff the task is complete; red iff it is incomplete, dated, past and not today; the date line is "No Date" for undated tasks; complete tasks are struck through |
| Timeline.DestructiveIffRedMarker | src/components/views/TimelineView.tsx:44-54 | the date text turns red exactly when the marker does |

## Left out

- Rendering, styling, hook and effect scheduling. Handlers and memo bodies are pure functions of their inputs.
- Zustand/localStorage persistence and the auto-save debounce timers: I/O. Only the auto-save guard and mapping are modelled.
- Layout.GetLayoutedElements: the `direction = 'TB'` default parameter (src/lib/layout.ts:9) is not modelled; the direction is always passed, and the only caller passes "TB" (src/lib/ai-importer.ts:118).
- dagre's ranking and coordinate assignment: an oracle from the graph to a centre per id. The module-level graph is never cleared between calls. That hidden library state is not modelled.
- `JSON.parse`: an oracle returning either a parse failure or the parsed value, read through its `title`, `nodes` and `connections` properties.
- Node type strings outside the seven kinds, which the importer would pass through: they parse to an absent type.
- Importer.HydrateNode: `originalNode.status || 'todo'` (src/lib/ai-importer.ts:141) keeps any non-empty status string, known or not. The model has only the three statuses, so an unknown status is not represented. Such a node would count in a board's task total but in none of the three status counts, so Analytics.CountsAddUp holds only for the closed set of statuses.
- Importer.ParseAndLayoutPlan: the model represents every listed node and connection as an object with string ids. A `null` element of `nodes` or `connections` makes the source throw a TypeError (src/lib/ai-importer.ts:88, 103 and 123). A non-string id would be compared by the JavaScript map. Neither case can be expressed here.
- Importer.Original: the source's non-null assertion `!` (src/lib/ai-importer.ts:123) is replaced by an explicit fallback. Every laid-out id comes from the map, so the fallback is never taken on real plans.
- `uuidv4`: an id supply or an explicit fresh id.
- `new Date()`, date parsing, `toDateString`, `isPast`, `isToday` and `format`: parameters. Date parsing always yields a valid instant. An unparseable date string gives an Invalid Date in the source (src/lib/ai-importer.ts:142). Its time is NaN in the sort comparators (src/components/views/CalendarView.tsx:78, src/components/views/TimelineView.tsx:26), and `format` throws on it (src/components/views/CalendarView.tsx:83, src/components/views/TimelineView.tsx:55). Invalid dates lie outside the model.
- BoardStore.CreateBoard: one `now` stands for the two separate clock reads of `createdAt` and `updatedAt`. BoardStore.DuplicateBoard, Importer.HydrateNode (src/lib/ai-importer.ts:143-144) and BoardView.InsertedNode (src/components/canvas/BoardView.tsx:216-217) do the same, so the model cannot show the two timestamps differing.
- Floating point: positions are exact reals.
- Analytics.RoundPercent: `Math.round(c / t * 100)` is modelled as exact half-up rounding. The float result can differ at .5 boundaries.
- Text.Lower: `toLowerCase` is ASCII-only. Unicode case mapping is not modelled.
- NodeEdits.UpdateNodeData: the patch covers only the fields the components write (content, date, status).
- TaskViews.SortByTime: sortedness and permutation are stated. Stability is not, because the calendar's times are compared only by value.
- The calendar's in-place sort of its memoised array is not modelled. Its only effect is on later renders.
- CanvasToolbar.tsx placement (`Math.random`, screen projection), CustomEdge.tsx geometry, ColorPicker.tsx, NodeSidebar.tsx, mobile-nav.tsx, App.tsx: UI and library code.
- Clipboard and navigation: navigation is recorded as the target path only.

## Findings

| source | as written | input that shows it | evidently intended | confidence | as-written member | corrected member |
|---|---|---|---|---|---|---|
| src/components/views/TimelineView.tsx:23-27 | the sort comparator returns 1 whenever the left task is undated, so two undated tasks each compare greater than the other; the comparator is inconsistent, and the engine may order undated tasks arbitrarily | two task nodes with no `dateTime`: compare(a, b) = 1 and compare(b, a) = 1 | undated tasks after all dated ones, tied with each other (0), so the sort keeps their board order | not executed; medium | Timeline.AsWrittenNotAntisymmetric | Timeline.TimelineOrder |
