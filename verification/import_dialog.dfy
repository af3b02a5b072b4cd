/**
 * The AI import dialog: the fence-stripping sanitiser applied to the pasted
 * text, and the import handler that writes to the board store only after
 * the importer has succeeded.
 */
module ImportDialog {
  import opened Wrappers
  import opened Types
  import opened Text
  import opened Layout
  import opened Importer
  import BoardStore

  const Fence: string := "```"
  const JsonFence: string := "```json"

  /** `replace(/^```json\s*\/, "")`: an opening json fence and the white space after it. */
  function StripJsonFence(s: string): (r: string)
    ensures StartsWith(s, JsonFence) ==> r == TrimStart(s[|JsonFence|..])
    ensures !StartsWith(s, JsonFence) ==> r == s
    ensures |r| <= |s| && r == s[|s| - |r|..]
  {
    if StartsWith(s, JsonFence) then TrimStart(s[|JsonFence|..]) else s
  }

  /** `replace(/^```\s*\/, "")`: an opening bare fence and the white space after it. */
  function StripFence(s: string): (r: string)
    ensures StartsWith(s, Fence) ==> r == TrimStart(s[|Fence|..])
    ensures !StartsWith(s, Fence) ==> r == s
    ensures |r| <= |s| && r == s[|s| - |r|..]
  {
    if StartsWith(s, Fence) then TrimStart(s[|Fence|..]) else s
  }

  /**
   * `replace(/\s*```$/, "")`: the leftmost match of white space followed by
   * a fence that ends the text, i.e. the closing fence together with every
   * white-space character right before it.
   */
  function StripClosingFence(s: string): (r: string)
    ensures EndsWith(s, Fence) ==> r == TrimEnd(s[..|s| - |Fence|])
    ensures !EndsWith(s, Fence) ==> r == s
    ensures |r| <= |s| && r == s[..|r|]
  {
    if EndsWith(s, Fence) then TrimEnd(s[..|s| - |Fence|]) else s
  }

  /** The sanitiser: both opening strips, the closing strip, then `trim`. */
  function Sanitise(s: string): (r: string)
    ensures |r| > 0 ==> !IsSpace(r[0]) && !IsSpace(r[|r| - 1])
  {
    Trim(StripClosingFence(StripFence(StripJsonFence(s))))
  }

  /** Text that neither starts nor ends with a fence is only trimmed. */
  lemma NoFenceOnlyTrims(s: string)
    requires !StartsWith(s, Fence) && !EndsWith(s, Fence)
    ensures Sanitise(s) == Trim(s)
  {
    JsonFenceIsFence(s);
    assert StripJsonFence(s) == s;
    assert StripFence(s) == s;
    assert StripClosingFence(s) == s;
  }

  /** The json fence begins with the bare fence. */
  lemma JsonFenceIsFence(s: string)
    ensures StartsWith(s, JsonFence) ==> StartsWith(s, Fence)
  {
    if StartsWith(s, JsonFence) {
      assert s[..3] == s[..7][..3];
    }
  }

  /**
   * An opening fence counts only at the very first character: after
   * leading white space it is left in place, and a fenced text that does
   * not end with a fence comes out still starting with one.
   */
  lemma LeadingSpaceKeepsOpeningFence(ws: string, t: string)
    requires |ws| > 0 && AllSpace(ws) && StartsWith(t, Fence) && !EndsWith(ws + t, Fence)
    ensures Sanitise(ws + t) == TrimEnd(t)
    ensures StartsWith(Sanitise(ws + t), Fence)
  {
    LeadingSpaceUntouched(ws, t);
    FenceStartIsNoSpace(t);
    TrimStartSkips(ws, t);
    FenceHasNoSpace();
    TrimEndKeepsPrefix(t, Fence);
  }

  /** Neither opening strip nor, without a closing fence, the closing strip touches text led by white space. */
  lemma LeadingSpaceUntouched(ws: string, t: string)
    requires |ws| > 0 && AllSpace(ws) && !EndsWith(ws + t, Fence)
    ensures StripClosingFence(StripFence(StripJsonFence(ws + t))) == ws + t
  {
    assert (ws + t)[0] == ws[0];
    SpaceStartIsNoFence(ws + t);
  }

  /** Text starting with a fence starts with a character that is not white space. */
  lemma FenceStartIsNoSpace(t: string)
    requires StartsWith(t, Fence)
    ensures |t| > 0 && !IsSpace(t[0])
  {
    assert t[0] == t[..3][0];
  }

  /** The fence holds no white space. */
  lemma FenceHasNoSpace()
    ensures !exists i :: 0 <= i < |Fence| && IsSpace(Fence[i])
  {
  }

  /** Text that starts with white space starts with neither fence. */
  lemma SpaceStartIsNoFence(s: string)
    requires |s| > 0 && IsSpace(s[0])
    ensures !StartsWith(s, Fence) && !StartsWith(s, JsonFence)
  {
    assert |s| >= 3 ==> s[..3][0] == s[0];
    assert |s| >= 7 ==> s[..7][0] == s[0];
  }

  /**
   * The closing fence counts only as the very last characters: when the
   * text ends in white space the closing strip does nothing.
   */
  lemma TrailingSpaceKeepsClosingFence(s: string)
    requires |s| > 0 && IsSpace(s[|s| - 1])
    ensures Sanitise(s) == Trim(StripFence(StripJsonFence(s)))
  {
    var a := StripJsonFence(s);
    var o := StripFence(a);
    if |o| > 0 {
      SuffixKeepsLast(a, o);
      SuffixKeepsLast(s, a);
    }
    SpaceEndIsNoFence(o);
  }

  /** A non-empty suffix ends with the same character as the whole text. */
  lemma SuffixKeepsLast(s: string, r: string)
    requires 0 < |r| <= |s| && r == s[|s| - |r|..]
    ensures r[|r| - 1] == s[|s| - 1]
  {
  }

  /** Text whose last character is white space does not end with a fence. */
  lemma SpaceEndIsNoFence(o: string)
    requires |o| > 0 ==> IsSpace(o[|o| - 1])
    ensures !EndsWith(o, Fence)
  {
    if |o| >= 3 {
      assert o[|o| - 3..][2] == o[|o| - 1];
    }
  }

  /**
   * A fence tag other than lower-case `json` is not stripped: only the bare
   * fence goes, and the tag is left as leading text.
   */
  lemma OtherTagSurvives(tag: string, rest: string)
    requires |tag| > 0 && !IsSpace(tag[0]) && !StartsWith(tag + rest, "json")
    ensures StripFence(StripJsonFence(Fence + tag + rest)) == tag + rest
  {
    var s := Fence + tag + rest;
    assert s[3..] == tag + rest;
    assert |tag + rest| >= 4 ==> s[3..7] == (tag + rest)[..4];
    assert !StartsWith(s, JsonFence);
    assert StartsWith(s, Fence) by { assert s[..3] == Fence; }
    TrimStartSkips("", tag + rest);
    assert "" + (tag + rest) == tag + rest;
  }

  /**
   * The round trip the sanitiser exists for: a body with no white space at
   * either end (one that trimming leaves alone), wrapped in a json fence on
   * lines of its own, comes back exactly.
   */
  lemma FencedBodyRoundTrip(body: string)
    requires |body| > 0 ==> !IsSpace(body[0]) && !IsSpace(body[|body| - 1])
    requires !StartsWith(body, Fence)
    ensures Sanitise(JsonFence + "\n" + body + "\n" + Fence) == body
  {
    if |body| > 0 {
      NonEmptyFencedBody(body);
    } else {
      EmptyFencedBody(body);
    }
  }

  /** A non-empty body with no white space at either end, fenced, sanitises back to itself. */
  lemma NonEmptyFencedBody(body: string)
    requires |body| > 0 && !IsSpace(body[0]) && !IsSpace(body[|body| - 1]) && !StartsWith(body, Fence)
    ensures Sanitise(JsonFence + "\n" + body + "\n" + Fence) == body
  {
    JsonFenceBeforeBody(body);
    BodyThenFenceIsNoFence(body);
    ClosingFenceOf(body);
    TrimOfTrimmed(body);
  }

  /** The json fence and the line break after it are stripped, down to the body. */
  lemma JsonFenceBeforeBody(body: string)
    requires |body| > 0 && !IsSpace(body[0])
    ensures StripJsonFence(JsonFence + "\n" + body + "\n" + Fence) == body + "\n" + Fence
  {
    var s := JsonFence + "\n" + body + "\n" + Fence;
    var a := body + "\n" + Fence;
    assert s[..|JsonFence|] == JsonFence;
    assert s[|JsonFence|..] == "\n" + a;
    assert a[0] == body[0];
    TrimStartSkips("\n", a);
  }

  /** An empty fenced body sanitises to the empty text. */
  lemma EmptyFencedBody(body: string)
    requires body == []
    ensures Sanitise(JsonFence + "\n" + body + "\n" + Fence) == ""
  {
    JsonFenceBeforeNothing(body);
    BareFenceStrips();
  }

  /** With nothing between them, the json fence strip leaves only the closing fence. */
  lemma JsonFenceBeforeNothing(body: string)
    requires body == []
    ensures StripJsonFence(JsonFence + "\n" + body + "\n" + Fence) == Fence
  {
    var s := JsonFence + "\n" + body + "\n" + Fence;
    assert s[..|JsonFence|] == JsonFence;
    assert s[|JsonFence|..] == "\n\n" + Fence;
    assert AllSpace("\n\n");
    TrimStartSkips("\n\n", Fence);
  }

  /** A lone fence strips to nothing. */
  lemma BareFenceStrips()
    ensures StripFence(Fence) == ""
  {
    assert Fence[..|Fence|] == Fence;
    assert Fence[|Fence|..] == "";
  }

  /** A body that does not start with a fence does not start with one once a line and a fence follow. */
  lemma BodyThenFenceIsNoFence(body: string)
    requires |body| > 0 && !StartsWith(body, Fence)
    ensures !StartsWith(body + "\n" + Fence, Fence)
  {
    var a := body + "\n" + Fence;
    if |body| >= 3 {
      assert a[..3] == body[..3];
    } else {
      assert a[|body|] == '\n' && Fence[|body|] == '`';
    }
  }

  /** The closing strip takes off the fence and the line break before it, down to the body. */
  lemma ClosingFenceOf(body: string)
    requires |body| > 0 ==> !IsSpace(body[|body| - 1])
    ensures StripClosingFence(body + "\n" + Fence) == body
  {
    var a := body + "\n" + Fence;
    assert a[|a| - |Fence|..] == Fence;
    assert a[..|a| - |Fence|] == body + "\n";
    TrimEndSkips(body, "\n");
  }

  /** The import button is disabled while the pasted text trims to empty. */
  predicate ImportDisabled(jsonInput: string) {
    Trim(jsonInput) == []
  }

  /** Import is enabled exactly when the text holds a non-space character. */
  lemma ImportEnabledIffContent(jsonInput: string)
    ensures !ImportDisabled(jsonInput) <==> exists i :: 0 <= i < |jsonInput| && !IsSpace(jsonInput[i])
  {
  }

  /** The dialog's own state: open flag, pasted text, shown error, and where it navigated. */
  datatype Dialog = Dialog(isOpen: bool, jsonInput: string, error: Option<string>, navigatedTo: Option<string>)

  const ImportDescription: string := "Imported from AI Plan"
  const FallbackError: string := "Failed to parse plan"

  /** `err.message || "Failed to parse plan"`. */
  function ShownError(e: ImportError): (r: string)
    ensures r != ""
    ensures e.Message() != "" ==> r == e.Message()
  {
    if e.Message() != "" then e.Message() else FallbackError
  }

  /** Every error the importer can raise carries a message, so the fallback text never shows. */
  lemma ImportErrorsHaveMessages(p: ParseOutcome, uuid: Uuid, dagre: Dagre, now: Instant, parseDate: string -> Instant)
    ensures var r := ParseAndLayoutPlan(p, uuid, dagre, now, parseDate);
      r.Failure? ==> r.error.Message() != "" && ShownError(r.error) == r.error.Message()
  {
  }

  /** The partial `{ nodes, connections }` the handler writes after creating the board. */
  function ContentPatch(nodes: seq<AppNode>, connections: seq<AppConnection>): BoardStore.BoardPatch {
    BoardStore.EmptyPatch.(nodes := Some(nodes), connections := Some(connections))
  }

  /**
   * The two store writes of a successful import: `createBoard` under an
   * unused id, then `updateBoard` with the imported content. The existing
   * boards stay as they were and exactly one board is appended: named after
   * the plan, described as imported, holding the imported nodes and
   * connections, and active.
   */
  function WriteImport(store: BoardStore.State, plan: ImportedPlan, boardId: string,
                       createdNow: string, updatedNow: string): (s: BoardStore.State)
    requires !BoardStore.HasBoard(store, boardId)
    ensures |s.boards| == |store.boards| + 1 && s.boards[..|store.boards|] == store.boards
    ensures var b := s.boards[|store.boards|];
      && b.id == boardId && b.name == plan.boardName && b.description == Some(ImportDescription)
      && b.nodes == plan.nodes && b.connections == plan.connections
      && b.createdAt == createdNow && b.updatedAt == updatedNow && !b.starred && b.password.None?
    ensures s.activeBoardId == Some(boardId) && s.appSettings == store.appSettings
  {
    var (created, id) := BoardStore.CreateBoard(store, plan.boardName, Some(ImportDescription), boardId, createdNow);
    var s := BoardStore.UpdateBoard(created, id, ContentPatch(plan.nodes, plan.connections), updatedNow);
    assert forall i :: 0 <= i < |store.boards| ==> created.boards[i] == store.boards[i];
    assert s.boards[..|store.boards|] == store.boards;
    s
  }

  /**
   * `handleImport`. The pasted text is sanitised and handed to the JSON
   * parser (`parse`) and the importer. On failure the store is left exactly
   * as it was and the error is shown; on success the board is written under
   * `boardId` (an id the store does not hold yet: `uuidv4` is fresh), the
   * dialog closes and the app navigates to the board.
   */
  function HandleImport(d: Dialog, store: BoardStore.State, parse: string -> ParseOutcome,
                        uuid: Uuid, dagre: Dagre, now: Instant, parseDate: string -> Instant,
                        boardId: string, createdNow: string, updatedNow: string): (r: (Dialog, BoardStore.State))
    requires !BoardStore.HasBoard(store, boardId)
    ensures var res := ParseAndLayoutPlan(parse(Sanitise(d.jsonInput)), uuid, dagre, now, parseDate);
      && (res.Failure? ==>
            && r.1 == store
            && r.0 == d.(error := Some(ShownError(res.error))))
      && (res.Success? ==>
            && r.0 == d.(isOpen := false, error := None, navigatedTo := Some("/board/" + boardId))
            && r.1 == WriteImport(store, res.value, boardId, createdNow, updatedNow))
  {
    var cleared := d.(error := None);
    match ParseAndLayoutPlan(parse(Sanitise(d.jsonInput)), uuid, dagre, now, parseDate)
    case Failure(e) => (cleared.(error := Some(ShownError(e))), store)
    case Success(plan) =>
      (cleared.(isOpen := false, navigatedTo := Some("/board/" + boardId)),
       WriteImport(store, plan, boardId, createdNow, updatedNow))
  }
}
