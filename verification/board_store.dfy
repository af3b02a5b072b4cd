/**
 * The board store: a state-transition system over the list of boards, the
 * active board id and the app settings. The id supply (`uuidv4`) and the
 * clock (`new Date().toISOString()`) are parameters of each operation.
 */
module BoardStore {
  import opened Wrappers
  import opened Types
  import opened Collections

  /** `b => b.id === id`. */
  function HasId(id: string): Board -> bool {
    (b: Board) => b.id == id
  }

  /** `boards.find(b => b.id === id)` returns the first board listed under the id. */
  lemma FirstUnderId(boards: seq<Board>, id: string)
    ensures forall k :: 0 <= k < |boards| && boards[k].id == id && (forall j :: 0 <= j < k ==> boards[j].id != id) ==>
      FindFirst(boards, HasId(id)) == Some(boards[k])
  {
    forall k | 0 <= k < |boards| && boards[k].id == id && (forall j :: 0 <= j < k ==> boards[j].id != id)
      ensures FindFirst(boards, HasId(id)) == Some(boards[k])
    {
      FindFirstAt(boards, HasId(id), k);
    }
  }

  datatype Theme = Light | Dark
  datatype DefaultView = DashboardView | LastBoard
  datatype DateFormat = MonthFirst | DayFirst
  datatype TimeFormat = TwelveHour | TwentyFourHour

  datatype AppSettings = AppSettings(
    theme: Theme,
    defaultView: DefaultView,
    dateFormat: DateFormat,
    timeFormat: TimeFormat,
    globalColorGlossary: ColorGlossary)

  datatype State = State(boards: seq<Board>, activeBoardId: Option<string>, appSettings: AppSettings)

  /** The store before anything is persisted: no boards, nothing active. */
  const InitialState: State :=
    State([], None, AppSettings(Light, DashboardView, MonthFirst, TwelveHour, DefaultGlossary))

  /** A board listed in the store under `id`. */
  predicate HasBoard(s: State, id: string) {
    exists i :: 0 <= i < |s.boards| && s.boards[i].id == id
  }

  /** The board `createBoard` builds: empty, unstarred, default legend and settings. */
  function NewBoard(id: string, name: string, description: Option<string>, now: string): Board {
    Board(id, name, description, now, now, false, None, None, [], [],
          DefaultGlossary.(useGlobal := true), DefaultSettings)
  }

  /**
   * `createBoard`: appends one new board under the supplied id, makes it the
   * active board and returns its id.
   */
  function CreateBoard(s: State, name: string, description: Option<string>, id: string, now: string): (r: (State, string))
    ensures r.1 == id
    ensures |r.0.boards| == |s.boards| + 1 && r.0.boards[..|s.boards|] == s.boards
    ensures var b := r.0.boards[|s.boards|];
      && b.id == id && b.name == name && b.description == description
      && b.createdAt == now && b.updatedAt == now && !b.starred
      && b.password.None? && b.sharedAccess.None?
      && b.nodes == [] && b.connections == []
      && b.colorGlossary == DefaultGlossary && b.colorGlossary.useGlobal
      && b.settings == DefaultSettings
    ensures r.0.activeBoardId == Some(id)
    ensures r.0.appSettings == s.appSettings
  {
    (s.(boards := s.boards + [NewBoard(id, name, description, now)], activeBoardId := Some(id)), id)
  }

  /** The boards that survive deleting `id`. */
  function Without(boards: seq<Board>, id: string): seq<Board> {
    Filter(boards, (b: Board) => b.id != id)
  }

  /**
   * `deleteBoard`: removes every board under `id` and keeps the rest; the
   * active board id is cleared only when it pointed at `id`.
   */
  function DeleteBoard(s: State, id: string): (r: State)
    ensures forall b :: b in r.boards <==> b in s.boards && b.id != id
    ensures !HasBoard(r, id)
    ensures multiset(r.boards) <= multiset(s.boards)
    ensures r.activeBoardId == (if s.activeBoardId == Some(id) then None else s.activeBoardId)
    ensures r.appSettings == s.appSettings
  {
    var boards := Without(s.boards, id);
    assert !HasBoard(s.(boards := boards), id) by {
      forall i | 0 <= i < |boards| ensures boards[i].id != id {
        assert boards[i] in boards;
      }
    }
    State(boards, if s.activeBoardId == Some(id) then None else s.activeBoardId, s.appSettings)
  }

  /** Deleting keeps relative order: it distributes over a split of the list. */
  lemma DeleteKeepsOrder(s: State, id: string, k: int)
    requires 0 <= k <= |s.boards|
    ensures DeleteBoard(s, id).boards ==
            DeleteBoard(s.(boards := s.boards[..k]), id).boards + DeleteBoard(s.(boards := s.boards[k..]), id).boards
  {
    assert s.boards == s.boards[..k] + s.boards[k..];
    FilterAppend(s.boards[..k], s.boards[k..], (b: Board) => b.id != id);
  }

  /** Deleting an id that no board has changes nothing but an active board id naming it. */
  lemma {:induction false} DeleteAbsentKeepsBoards(boards: seq<Board>, id: string)
    requires forall i :: 0 <= i < |boards| ==> boards[i].id != id
    ensures Without(boards, id) == boards
  {
    if |boards| > 0 {
      DeleteAbsentKeepsBoards(boards[1..], id);
    }
  }

  /** A `Partial<Board>`: `None` is a key the partial leaves out; optional fields can be set to `undefined`. */
  datatype BoardPatch = BoardPatch(
    id: Option<string>,
    name: Option<string>,
    description: Option<Option<string>>,
    createdAt: Option<string>,
    updatedAt: Option<string>,
    starred: Option<bool>,
    password: Option<Option<string>>,
    sharedAccess: Option<Option<SharedAccess>>,
    nodes: Option<seq<AppNode>>,
    connections: Option<seq<AppConnection>>,
    colorGlossary: Option<ColorGlossary>,
    settings: Option<BoardSettings>)

  /** The partial that lists no key. */
  const EmptyPatch: BoardPatch := BoardPatch(None, None, None, None, None, None, None, None, None, None, None, None)

  /** A patch writing only the name. */
  function NamePatch(name: string): BoardPatch {
    EmptyPatch.(name := Some(name))
  }

  /** `{ ...b, ...updates }`: every key the partial lists overrides the board's. */
  function Merge(b: Board, p: BoardPatch): Board {
    Board(p.id.GetOr(b.id), p.name.GetOr(b.name), p.description.GetOr(b.description),
          p.createdAt.GetOr(b.createdAt), p.updatedAt.GetOr(b.updatedAt), p.starred.GetOr(b.starred),
          p.password.GetOr(b.password), p.sharedAccess.GetOr(b.sharedAccess),
          p.nodes.GetOr(b.nodes), p.connections.GetOr(b.connections),
          p.colorGlossary.GetOr(b.colorGlossary), p.settings.GetOr(b.settings))
  }

  /** Merging an empty partial keeps the board; merging the same partial twice is merging it once. */
  lemma MergeLaws(b: Board, p: BoardPatch)
    ensures Merge(b, EmptyPatch) == b
    ensures Merge(Merge(b, p), p) == Merge(b, p)
  {
  }

  /**
   * `updateBoard`: every board under `id` gets the partial merged in and its
   * `updatedAt` forced to now; other boards, their order, the active board id and
   * the settings are untouched.
   */
  function UpdateBoard(s: State, id: string, p: BoardPatch, now: string): (r: State)
    ensures |r.boards| == |s.boards|
    ensures forall i :: 0 <= i < |s.boards| && s.boards[i].id != id ==> r.boards[i] == s.boards[i]
    ensures forall i :: 0 <= i < |s.boards| && s.boards[i].id == id ==>
      && r.boards[i].updatedAt == now
      && r.boards[i] == Merge(s.boards[i], p.(updatedAt := Some(now)))
    ensures r.activeBoardId == s.activeBoardId && r.appSettings == s.appSettings
    ensures !HasBoard(s, id) ==> r == s
  {
    var boards := seq(|s.boards|, i requires 0 <= i < |s.boards| =>
      if s.boards[i].id == id then Merge(s.boards[i], p).(updatedAt := now) else s.boards[i]);
    assert !HasBoard(s, id) ==> boards == s.boards;
    s.(boards := boards)
  }

  /**
   * Repeating an update that keeps the id is the same as applying it once
   * at the later time. A partial that renames the id does not match the
   * second time, so the requirement cannot be dropped.
   */
  lemma UpdateTwice(s: State, id: string, p: BoardPatch, t1: string, t2: string)
    requires p.id.None? || p.id == Some(id)
    ensures UpdateBoard(UpdateBoard(s, id, p, t1), id, p, t2) == UpdateBoard(s, id, p, t2)
  {
    var r1 := UpdateBoard(s, id, p, t1);
    var r2 := UpdateBoard(r1, id, p, t2);
    var r := UpdateBoard(s, id, p, t2);
    forall i | 0 <= i < |s.boards| ensures r2.boards[i] == r.boards[i] {
      if s.boards[i].id == id {
        MergeAgain(s.boards[i], p, t1, t2);
      }
    }
    assert r2.boards == r.boards;
  }

  /** Merging a partial that keeps the id a second time, at a later time, is merging it once at that time. */
  lemma MergeAgain(b: Board, p: BoardPatch, t1: string, t2: string)
    requires p.id.None? || p.id == Some(b.id)
    ensures Merge(b, p.(updatedAt := Some(t1))).id == b.id
    ensures Merge(Merge(b, p.(updatedAt := Some(t1))), p.(updatedAt := Some(t2))) == Merge(b, p.(updatedAt := Some(t2)))
  {
  }

  /**
   * `duplicateBoard`: the first board under `id` is copied to the end under
   * the supplied id, named with " (Copy)" and stamped now; everything else
   * about it is shared. An unknown id changes nothing, and the active
   * board id never moves.
   */
  function DuplicateBoard(s: State, id: string, newId: string, now: string): (r: State)
    ensures !HasBoard(s, id) ==> r == s
    ensures HasBoard(s, id) ==>
      && |r.boards| == |s.boards| + 1 && r.boards[..|s.boards|] == s.boards
      && (exists i :: 0 <= i < |s.boards| && s.boards[i].id == id
            && (forall j :: 0 <= j < i ==> s.boards[j].id != id)
            && r.boards[|s.boards|] == s.boards[i].(id := newId, name := s.boards[i].name + " (Copy)",
                                                   createdAt := now, updatedAt := now))
    ensures r.activeBoardId == s.activeBoardId && r.appSettings == s.appSettings
  {
    match FindFirst(s.boards, HasId(id))
    case None => s
    case Some(b) =>
      var copy := b.(id := newId, name := b.name + " (Copy)", createdAt := now, updatedAt := now);
      assert (s.boards + [copy])[..|s.boards|] == s.boards;
      s.(boards := s.boards + [copy])
  }

  /** `setActiveBoard`: sets the active board id, whether or not a board has that id. */
  function SetActiveBoard(s: State, id: Option<string>): (r: State)
    ensures r.activeBoardId == id
    ensures r.boards == s.boards && r.appSettings == s.appSettings
  {
    s.(activeBoardId := id)
  }

  /**
   * `toggleStarBoard`: flips `starred` on the boards under `id` and nothing
   * else; in particular `updatedAt` is not touched.
   */
  function ToggleStarBoard(s: State, id: string): (r: State)
    ensures |r.boards| == |s.boards|
    ensures forall i :: 0 <= i < |s.boards| ==>
      if s.boards[i].id == id then r.boards[i] == s.boards[i].(starred := !s.boards[i].starred)
      else r.boards[i] == s.boards[i]
    ensures r.activeBoardId == s.activeBoardId && r.appSettings == s.appSettings
  {
    s.(boards := seq(|s.boards|, i requires 0 <= i < |s.boards| =>
      if s.boards[i].id == id then s.boards[i].(starred := !s.boards[i].starred) else s.boards[i]))
  }

  /** Toggling a star twice restores the store. */
  lemma ToggleStarTwice(s: State, id: string)
    ensures ToggleStarBoard(ToggleStarBoard(s, id), id) == s
  {
    var r := ToggleStarBoard(ToggleStarBoard(s, id), id);
    assert r.boards == s.boards;
  }

  /**
   * Creating a board under a fresh id and deleting it again restores the
   * list of boards; the active board id ends up cleared, not restored.
   */
  lemma CreateThenDelete(s: State, name: string, description: Option<string>, id: string, now: string)
    requires !HasBoard(s, id)
    ensures var r := DeleteBoard(CreateBoard(s, name, description, id, now).0, id);
      r.boards == s.boards && r.activeBoardId.None? && r.appSettings == s.appSettings
  {
    var b := NewBoard(id, name, description, now);
    FilterAppend(s.boards, [b], (x: Board) => x.id != id);
    DeleteAbsentKeepsBoards(s.boards, id);
    assert Filter([b], (x: Board) => x.id != id) == [];
  }

  /** Renaming a freshly created board leaves it the only board under its id, carrying the new name. */
  lemma CreateThenRename(s: State, name: string, description: Option<string>, id: string, newName: string, t1: string, t2: string)
    requires !HasBoard(s, id)
    ensures var r := UpdateBoard(CreateBoard(s, name, description, id, t1).0, id, NamePatch(newName), t2);
      && |r.boards| == |s.boards| + 1 && r.boards[..|s.boards|] == s.boards
      && r.boards[|s.boards|] == NewBoard(id, newName, description, t1).(updatedAt := t2)
      && r.activeBoardId == Some(id)
  {
    var c := CreateBoard(s, name, description, id, t1).0;
    var r := UpdateBoard(c, id, NamePatch(newName), t2);
    assert forall i :: 0 <= i < |s.boards| ==> c.boards[i] == s.boards[i];
    assert r.boards[..|s.boards|] == s.boards;
  }
}
