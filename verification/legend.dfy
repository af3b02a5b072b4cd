/** The colour legend panel: relabelling one colour of a board's glossary. */
module Legend {
  import opened Wrappers
  import opened Types
  import opened Collections
  import BoardStore

  /** The panel's editing state: the colour being relabelled, if any, and the typed label. */
  datatype LabelEditor = LabelEditor(editingColor: Option<string>, editLabel: string)

  /** The board the panel shows: the first under its id; without one the panel renders nothing. */
  function PanelBoard(boards: seq<Board>, boardId: string): (r: Option<Board>)
    ensures r.None? <==> forall i :: 0 <= i < |boards| ==> boards[i].id != boardId
    ensures r.Some? ==> r.value.id == boardId && r.value in boards
    ensures forall k :: 0 <= k < |boards| && boards[k].id == boardId && (forall j :: 0 <= j < k ==> boards[j].id != boardId) ==>
      r == Some(boards[k])
  {
    var r := FindFirst(boards, BoardStore.HasId(boardId));
    assert r.Some? ==> r.value in boards;
    BoardStore.FirstUnderId(boards, boardId);
    r
  }

  /** `startEditing`: selects the colour and seeds the input with its current label. */
  function StartEditing(color: string, currentLabel: string): (e: LabelEditor)
    ensures e.editingColor == Some(color) && e.editLabel == currentLabel
  {
    LabelEditor(Some(color), currentLabel)
  }

  /** The glossary after relabelling `color`: that key gets the label, every other entry and the flag stay. */
  function Relabel(g: ColorGlossary, color: string, labelText: string): (r: ColorGlossary)
    ensures r.useGlobal == g.useGlobal
    ensures r.colors.Keys == g.colors.Keys + {color}
    ensures r.colors[color] == labelText
    ensures forall k :: k in g.colors && k != color ==> r.colors[k] == g.colors[k]
  {
    g.(colors := g.colors[color := labelText])
  }

  /**
   * `handleSaveLabel`: writes the shown board's glossary, relabelled,
   * through `updateBoard` and ends edit mode. With no board shown nothing
   * can be saved.
   */
  function SaveLabel(store: BoardStore.State, boardId: string, e: LabelEditor, color: string, now: string)
    : (r: (BoardStore.State, LabelEditor))
    ensures PanelBoard(store.boards, boardId).None? ==> r == (store, e)
    ensures PanelBoard(store.boards, boardId).Some? ==>
      && r.1 == e.(editingColor := None)
      && r.0 == BoardStore.UpdateBoard(store, boardId,
           BoardStore.EmptyPatch.(colorGlossary := Some(Relabel(PanelBoard(store.boards, boardId).value.colorGlossary, color, e.editLabel))),
           now)
  {
    match PanelBoard(store.boards, boardId)
    case None => (store, e)
    case Some(b) =>
      var g := Relabel(b.colorGlossary, color, e.editLabel);
      (BoardStore.UpdateBoard(store, boardId, BoardStore.EmptyPatch.(colorGlossary := Some(g)), now), e.(editingColor := None))
  }

  /** The Enter key in the label input saves; other keys change nothing. */
  function LabelKeyDown(key: string, store: BoardStore.State, boardId: string, e: LabelEditor, color: string, now: string)
    : (r: (BoardStore.State, LabelEditor))
    ensures key == "Enter" ==> r == SaveLabel(store, boardId, e, color, now)
    ensures key != "Enter" ==> r == (store, e)
  {
    if key == "Enter" then SaveLabel(store, boardId, e, color, now) else (store, e)
  }

  /**
   * Editing a colour's label and saving it: on a board that is alone under
   * its id, the colour reads the typed label, every other colour keeps its
   * label, the use-global flag is kept, and the edit ends.
   */
  lemma EditThenSave(store: BoardStore.State, k: int, color: string, current: string, typed: string, now: string)
    requires 0 <= k < |store.boards|
    requires forall j :: 0 <= j < |store.boards| && j != k ==> store.boards[j].id != store.boards[k].id
    ensures var b := store.boards[k];
      var e := StartEditing(color, current).(editLabel := typed);
      var r := SaveLabel(store, b.id, e, color, now);
      && r.1.editingColor.None?
      && r.0.boards[k].colorGlossary.colors[color] == typed
      && r.0.boards[k].colorGlossary.useGlobal == b.colorGlossary.useGlobal
      && (forall c :: c in b.colorGlossary.colors && c != color ==>
            c in r.0.boards[k].colorGlossary.colors && r.0.boards[k].colorGlossary.colors[c] == b.colorGlossary.colors[c])
      && r.0.boards[k].(colorGlossary := b.colorGlossary, updatedAt := b.updatedAt) == b
  {
    var b := store.boards[k];
    FindFirstAt(store.boards, (x: Board) => x.id == b.id, k);
  }
}
