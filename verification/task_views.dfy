/**
 * What the calendar and the timeline share: task nodes collected from every
 * board and tagged with their board, and ordering by date.
 */
module TaskViews {
  import opened Wrappers
  import opened Types
  import opened Collections

  /** A task node with the name and id of the board it sits on. */
  datatype TaggedTask = TaggedTask(node: AppNode, boardName: string, boardId: string)

  function Tag(b: Board, n: AppNode): TaggedTask {
    TaggedTask(n, b.name, b.id)
  }

  /** Each of `nodes`, tagged with the board `b`, in order. */
  function TagEach(b: Board, nodes: seq<AppNode>): (r: seq<TaggedTask>)
    ensures |r| == |nodes| && forall k :: 0 <= k < |r| ==> r[k] == Tag(b, nodes[k])
  {
    seq(|nodes|, k requires 0 <= k < |nodes| => Tag(b, nodes[k]))
  }

  /** `keep`, read on the node a tagged task carries. */
  function Keeps(keep: AppNode -> bool): TaggedTask -> bool {
    (t: TaggedTask) => keep(t.node)
  }

  /** Every node of every board, tagged, board after board: the reference the selections are read against. */
  function AllTagged(boards: seq<Board>): seq<TaggedTask> {
    if |boards| == 0 then [] else TagEach(boards[0], boards[0].nodes) + AllTagged(boards[1..])
  }

  /** How many nodes `keep` selects over all boards. */
  function CountAll(boards: seq<Board>, keep: AppNode -> bool): nat {
    if |boards| == 0 then 0 else Count(boards[0].nodes, keep) + CountAll(boards[1..], keep)
  }

  /** The nodes of one board that `keep` selects, tagged with the board, in order. */
  function TagBoard(b: Board, keep: AppNode -> bool): (r: seq<TaggedTask>)
    ensures forall t :: t in r <==> exists j :: 0 <= j < |b.nodes| && keep(b.nodes[j]) && t == Tag(b, b.nodes[j])
    ensures forall t :: t in r ==> keep(t.node)
    ensures |r| == Count(b.nodes, keep)
  {
    var kept := Filter(b.nodes, keep);
    var r := TagEach(b, kept);
    TaggedAreKept(b, keep, kept, r);
    CountIsFilterLength(b.nodes, keep);
    r
  }

  /** Tagging commutes with selecting: select the nodes then tag them, or tag them all then select. */
  lemma {:induction false} TagThenSelect(b: Board, nodes: seq<AppNode>, keep: AppNode -> bool)
    ensures TagEach(b, Filter(nodes, keep)) == Filter(TagEach(b, nodes), Keeps(keep))
  {
    if |nodes| > 0 {
      var all := TagEach(b, nodes);
      var tail := nodes[1..];
      TagThenSelect(b, tail, keep);
      assert all[1..] == TagEach(b, tail);
      assert Keeps(keep)(all[0]) == keep(nodes[0]);
      if keep(nodes[0]) {
        TagCons(b, nodes[0], Filter(tail, keep));
      }
    }
  }

  lemma TagCons(b: Board, n: AppNode, nodes: seq<AppNode>)
    ensures TagEach(b, [n] + nodes) == [Tag(b, n)] + TagEach(b, nodes)
  {
  }

  /** One board's selection is the selection, in order and with repeats, of the board's tagged nodes. */
  lemma TagBoardIsFilter(b: Board, keep: AppNode -> bool)
    ensures TagBoard(b, keep) == Filter(TagEach(b, b.nodes), Keeps(keep))
  {
    TagThenSelect(b, b.nodes, keep);
  }

  /** Each tag of a kept node names a node of the board the filter keeps, and each such node is tagged. */
  lemma TaggedAreKept(b: Board, keep: AppNode -> bool, kept: seq<AppNode>, r: seq<TaggedTask>)
    requires forall x :: x in kept <==> x in b.nodes && keep(x)
    requires |r| == |kept| && forall k :: 0 <= k < |r| ==> r[k] == Tag(b, kept[k])
    ensures forall t :: t in r <==> exists j :: 0 <= j < |b.nodes| && keep(b.nodes[j]) && t == Tag(b, b.nodes[j])
  {
    forall t | t in r ensures exists j :: 0 <= j < |b.nodes| && keep(b.nodes[j]) && t == Tag(b, b.nodes[j]) {
      var k :| 0 <= k < |r| && r[k] == t;
      assert kept[k] in b.nodes;
    }
    forall j | 0 <= j < |b.nodes| && keep(b.nodes[j]) ensures Tag(b, b.nodes[j]) in r {
      assert b.nodes[j] in kept;
      var k :| 0 <= k < |kept| && kept[k] == b.nodes[j];
      assert r[k] == Tag(b, b.nodes[j]);
    }
  }

  /** `boards.flatMap(...)`: every board's selected nodes, tagged, board after board. */
  function TagAll(boards: seq<Board>, keep: AppNode -> bool): (r: seq<TaggedTask>)
    ensures forall i, j :: 0 <= i < |boards| && 0 <= j < |boards[i].nodes| && keep(boards[i].nodes[j]) ==>
      Tag(boards[i], boards[i].nodes[j]) in r
    ensures forall t :: t in r ==> exists i, j :: 0 <= i < |boards| && 0 <= j < |boards[i].nodes| && t == Tag(boards[i], boards[i].nodes[j])
    ensures forall t :: t in r ==> keep(t.node)
    ensures |r| == CountAll(boards, keep)
  {
    if |boards| == 0 then []
    else
      var rest := TagAll(boards[1..], keep);
      TagAllStep(boards, keep, rest);
      TagBoard(boards[0], keep) + rest
  }

  /** Putting the first board's selection in front of the rest's collects the selection of every board. */
  lemma TagAllStep(boards: seq<Board>, keep: AppNode -> bool, rest: seq<TaggedTask>)
    requires |boards| > 0
    requires forall i, j :: 0 <= i < |boards[1..]| && 0 <= j < |boards[1..][i].nodes| && keep(boards[1..][i].nodes[j]) ==>
      Tag(boards[1..][i], boards[1..][i].nodes[j]) in rest
    requires forall t :: t in rest ==> exists i, j :: 0 <= i < |boards[1..]| && 0 <= j < |boards[1..][i].nodes| && t == Tag(boards[1..][i], boards[1..][i].nodes[j])
    ensures var r := TagBoard(boards[0], keep) + rest;
      && (forall i, j :: 0 <= i < |boards| && 0 <= j < |boards[i].nodes| && keep(boards[i].nodes[j]) ==>
            Tag(boards[i], boards[i].nodes[j]) in r)
      && (forall t :: t in r ==> exists i, j :: 0 <= i < |boards| && 0 <= j < |boards[i].nodes| && t == Tag(boards[i], boards[i].nodes[j]))
  {
    var head := TagBoard(boards[0], keep);
    var r := head + rest;
    forall i, j | 0 <= i < |boards| && 0 <= j < |boards[i].nodes| && keep(boards[i].nodes[j])
      ensures Tag(boards[i], boards[i].nodes[j]) in r
    {
      if i > 0 {
        assert boards[1..][i - 1] == boards[i];
      }
    }
    forall t | t in r
      ensures exists i, j :: 0 <= i < |boards| && 0 <= j < |boards[i].nodes| && t == Tag(boards[i], boards[i].nodes[j])
    {
      if t in head {
        var j :| 0 <= j < |boards[0].nodes| && keep(boards[0].nodes[j]) && t == Tag(boards[0], boards[0].nodes[j]);
      } else {
        var i, j :| 0 <= i < |boards[1..]| && 0 <= j < |boards[1..][i].nodes| && t == Tag(boards[1..][i], boards[1..][i].nodes[j]);
        assert boards[1..][i] == boards[i + 1];
      }
    }
  }

  /**
   * The collected tasks are exactly the selected ones among all tagged nodes,
   * in board order and node order, each as often as it occurs.
   */
  lemma {:induction false} TagAllIsFilter(boards: seq<Board>, keep: AppNode -> bool)
    ensures TagAll(boards, keep) == Filter(AllTagged(boards), Keeps(keep))
  {
    if |boards| > 0 {
      TagAllIsFilter(boards[1..], keep);
      TagBoardIsFilter(boards[0], keep);
      FilterAppend(TagEach(boards[0], boards[0].nodes), AllTagged(boards[1..]), Keeps(keep));
    }
  }

  /** Collecting distributes over a split of the boards, so boards keep their order. */
  lemma TagAllAppend(a: seq<Board>, b: seq<Board>, keep: AppNode -> bool)
    ensures TagAll(a + b, keep) == TagAll(a, keep) + TagAll(b, keep)
  {
    TagAllIsFilter(a + b, keep);
    TagAllIsFilter(a, keep);
    TagAllIsFilter(b, keep);
    AllTaggedAppend(a, b);
    FilterAppend(AllTagged(a), AllTagged(b), Keeps(keep));
  }

  lemma {:induction false} AllTaggedAppend(a: seq<Board>, b: seq<Board>)
    ensures AllTagged(a + b) == AllTagged(a) + AllTagged(b)
  {
    if |a| > 0 {
      assert (a + b)[1..] == a[1..] + b;
      AllTaggedAppend(a[1..], b);
    } else {
      assert a + b == b;
    }
  }

  predicate IsTask(n: AppNode) { n.kind == Task }

  /** `node.type === 'task' && node.dateTime`. */
  predicate IsDatedTask(n: AppNode) { n.kind == Task && n.dateTime.Some? }

  predicate Dated(t: TaggedTask) { t.node.dateTime.Some? }

  /** The task's date as a time value (undated tasks never reach a date comparison). */
  function Time(t: TaggedTask): Instant { t.node.dateTime.GetOr(0) }

  /** Ascending by time. */
  predicate SortedByTime(s: seq<TaggedTask>) {
    forall i, j :: 0 <= i < j < |s| ==> Time(s[i]) <= Time(s[j])
  }

  /** Inserts `t` before the first element not earlier than it. */
  function Insert(t: TaggedTask, s: seq<TaggedTask>): (r: seq<TaggedTask>)
    ensures multiset(r) == multiset(s) + multiset{t}
  {
    if |s| == 0 then [t]
    else if Time(t) <= Time(s[0]) then [t] + s
    else
      assert s == [s[0]] + s[1..];
      [s[0]] + Insert(t, s[1..])
  }

  /** Every element of an insertion is at or after any bound that `t` and `s` keep. */
  lemma {:induction false} InsertAbove(t: TaggedTask, s: seq<TaggedTask>, bound: Instant)
    requires bound <= Time(t)
    requires forall i :: 0 <= i < |s| ==> bound <= Time(s[i])
    ensures forall i :: 0 <= i < |Insert(t, s)| ==> bound <= Time(Insert(t, s)[i])
  {
    if |s| > 0 && Time(t) > Time(s[0]) {
      InsertAbove(t, s[1..], bound);
    }
  }

  /** Insertion into a sorted sequence keeps it sorted. */
  lemma {:induction false} InsertSorted(t: TaggedTask, s: seq<TaggedTask>)
    requires SortedByTime(s)
    ensures SortedByTime(Insert(t, s))
  {
    if |s| == 0 {
    } else if Time(t) <= Time(s[0]) {
      assert forall i :: 0 <= i < |s| ==> Time(s[0]) <= Time(s[i]);
      ConsSorted(t, s);
    } else {
      var rest := Insert(t, s[1..]);
      assert Insert(t, s) == [s[0]] + rest;
      InsertSorted(t, s[1..]);
      InsertAbove(t, s[1..], Time(s[0]));
      ConsSorted(s[0], rest);
    }
  }

  /** Putting an element no later than any of a sorted sequence in front keeps it sorted. */
  lemma ConsSorted(x: TaggedTask, s: seq<TaggedTask>)
    requires SortedByTime(s)
    requires forall i :: 0 <= i < |s| ==> Time(x) <= Time(s[i])
    ensures SortedByTime([x] + s)
  {
    var r := [x] + s;
    forall i, j | 0 <= i < j < |r| ensures Time(r[i]) <= Time(r[j]) {
      assert r[j] == s[j - 1];
      if i > 0 {
        assert r[i] == s[i - 1];
      }
    }
  }

  /** The sort by date: ascending, and a permutation of its input. */
  function SortByTime(s: seq<TaggedTask>): (r: seq<TaggedTask>)
    ensures SortedByTime(r)
    ensures multiset(r) == multiset(s)
  {
    if |s| == 0 then []
    else
      assert s == [s[0]] + s[1..];
      InsertSorted(s[0], SortByTime(s[1..]));
      Insert(s[0], SortByTime(s[1..]))
  }
}
