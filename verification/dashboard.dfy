/** The dashboard: the board search with starred boards first, and the create-board form. */
module Dashboard {
  import opened Wrappers
  import opened Types
  import opened Text
  import opened Collections
  import BoardStore

  /** A board matches when its name, or its description if it has one, contains the term, ignoring case. */
  predicate Matches(b: Board, term: string)
    ensures term == [] ==> Matches(b, term)
  {
    IncludesEmpty(Lower(b.name));
    assert term == [] ==> Lower(term) == [];
    || Includes(Lower(b.name), Lower(term))
    || (b.description.Some? && Includes(Lower(b.description.value), Lower(term)))
  }

  function MatchesTerm(term: string): Board -> bool {
    (b: Board) => Matches(b, term)
  }

  function Starred(b: Board): bool { b.starred }
  function Unstarred(b: Board): bool { !b.starred }

  /**
   * The `sort` by the starred flag. The comparator orders starred before
   * unstarred and ties everything else, and the sort is stable, so its
   * result is the starred boards followed by the others, each group in its
   * original order.
   */
  function StarredFirst(s: seq<Board>): seq<Board> {
    Filter(s, Starred) + Filter(s, Unstarred)
  }

  /** `filteredBoards`: the matching boards, starred first. */
  function FilteredBoards(boards: seq<Board>, term: string): (r: seq<Board>)
    ensures multiset(r) == multiset(Filter(boards, MatchesTerm(term)))
    ensures |r| == Count(boards, MatchesTerm(term))
  {
    var f := Filter(boards, MatchesTerm(term));
    StarredFirstPermutes(f);
    CountIsFilterLength(boards, MatchesTerm(term));
    assert |StarredFirst(f)| == |multiset(StarredFirst(f))|;
    StarredFirst(f)
  }

  /** A predicate every element satisfies filters nothing out. */
  lemma {:induction false} FilterAll<T(!new)>(s: seq<T>, p: T -> bool)
    requires forall i :: 0 <= i < |s| ==> p(s[i])
    ensures Filter(s, p) == s
  {
    if |s| > 0 {
      FilterAll(s[1..], p);
      assert s == [s[0]] + s[1..];
    }
  }

  /** A predicate no element satisfies filters everything out. */
  lemma {:induction false} FilterNone<T(!new)>(s: seq<T>, p: T -> bool)
    requires forall i :: 0 <= i < |s| ==> !p(s[i])
    ensures Filter(s, p) == []
  {
    if |s| > 0 {
      FilterNone(s[1..], p);
    }
  }

  /** Starred-first ordering is a permutation of its input. */
  lemma StarredFirstPermutes(s: seq<Board>)
    ensures multiset(StarredFirst(s)) == multiset(s)
  {
    PartitionPermutes(s, Starred, Unstarred);
  }

  /**
   * Starred-first ordering puts every starred board before every unstarred
   * one: exactly the first `Count(s, Starred)` positions are starred.
   */
  lemma StarredFirstOrdered(s: seq<Board>)
    ensures forall i :: 0 <= i < |StarredFirst(s)| ==> (StarredFirst(s)[i].starred <==> i < Count(s, Starred))
  {
    var a := Filter(s, Starred);
    var b := Filter(s, Unstarred);
    CountIsFilterLength(s, Starred);
    assert forall i :: 0 <= i < |b| ==> !Starred(b[i]);
    SplitAtSeam(a, b, Starred);
  }

  /** Starred-first ordering is stable: within each group the original order is kept. */
  lemma StarredFirstStable(s: seq<Board>)
    ensures Filter(StarredFirst(s), Starred) == Filter(s, Starred)
    ensures Filter(StarredFirst(s), Unstarred) == Filter(s, Unstarred)
  {
    var a := Filter(s, Starred);
    var b := Filter(s, Unstarred);
    FilterAppend(a, b, Starred);
    FilterAppend(a, b, Unstarred);
    FilterAll(a, Starred);
    FilterNone(b, Starred);
    FilterNone(a, Unstarred);
    FilterAll(b, Unstarred);
    assert a + [] == a;
    assert [] + b == b;
  }

  /** With an empty search term every board is listed. */
  lemma EmptyTermKeepsAll(boards: seq<Board>)
    ensures multiset(FilteredBoards(boards, "")) == multiset(boards)
  {
    FilterAll(boards, MatchesTerm(""));
  }

  /** A board is listed iff it matches the term. */
  lemma ListedIffMatches(boards: seq<Board>, term: string, b: Board)
    ensures b in FilteredBoards(boards, term) <==> b in boards && Matches(b, term)
  {
    var f := Filter(boards, MatchesTerm(term));
    assert b in FilteredBoards(boards, term) <==> b in multiset(FilteredBoards(boards, term));
    assert b in f <==> b in multiset(f);
  }

  /** The create dialog's fields. */
  datatype CreateForm = CreateForm(name: string, description: string, isOpen: bool)

  /**
   * `handleCreateBoard`: a name that trims to empty is ignored. Otherwise the
   * board is created with the untrimmed name and the description as typed
   * (an empty one included), the form is cleared and closed, and the app
   * navigates to the new board.
   */
  function HandleCreate(store: BoardStore.State, form: CreateForm, id: string, now: string)
    : (r: (BoardStore.State, CreateForm, Option<string>))
    ensures Trim(form.name) == [] ==> r == (store, form, None)
    ensures Trim(form.name) != [] ==>
      && r.0 == BoardStore.CreateBoard(store, form.name, Some(form.description), id, now).0
      && r.1 == CreateForm("", "", false)
      && r.2 == Some("/board/" + id)
  {
    if Trim(form.name) == [] then (store, form, None)
    else
      var (created, newId) := BoardStore.CreateBoard(store, form.name, Some(form.description), id, now);
      (created, CreateForm("", "", false), Some("/board/" + newId))
  }

  /** A name of only white space never creates a board; a name with any other character always does. */
  lemma CreateGuard(store: BoardStore.State, form: CreateForm, id: string, now: string)
    ensures |HandleCreate(store, form, id, now).0.boards| == |store.boards| + (if AllSpace(form.name) then 0 else 1)
  {
  }
}
