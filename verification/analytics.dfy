/**
 * Task statistics: the per-board panel on the canvas and the analytics
 * dashboard's board selection, per-board rows, status distribution and
 * headline figures. Only task-type nodes are ever counted.
 */
module Analytics {
  import opened Wrappers
  import opened Types
  import opened Collections
  import opened BoardStore

  predicate IsTask(n: AppNode) { n.kind == Task }
  predicate IsComplete(n: AppNode) { n.status == Some(Complete) }
  predicate IsInProgress(n: AppNode) { n.status == Some(InProgress) }
  /** `!n.status || n.status === 'todo'`: an absent status counts as to-do. */
  predicate IsTodo(n: AppNode) { n.status.None? || n.status == Some(Todo) }

  function Tasks(nodes: seq<AppNode>): seq<AppNode> {
    Filter(nodes, IsTask)
  }

  datatype StatusCounts = StatusCounts(total: nat, completed: nat, inProgress: nat, todo: nat)

  /** `n.type === 'task' && n.status === 'complete'`. */
  predicate IsCompletedTask(n: AppNode) { IsTask(n) && IsComplete(n) }
  predicate IsInProgressTask(n: AppNode) { IsTask(n) && IsInProgress(n) }
  predicate IsTodoTask(n: AppNode) { IsTask(n) && IsTodo(n) }

  /**
   * The task counts of one list of nodes: how many nodes are tasks, and how
   * many are tasks with each status, absent counting as to-do.
   */
  function CountsOf(nodes: seq<AppNode>): (c: StatusCounts)
    ensures c.total == |Tasks(nodes)| == Count(nodes, IsTask)
    ensures c.completed == Count(nodes, IsCompletedTask)
    ensures c.inProgress == Count(nodes, IsInProgressTask)
    ensures c.todo == Count(nodes, IsTodoTask)
    ensures c.completed <= c.total && c.inProgress <= c.total && c.todo <= c.total
  {
    var tasks := Tasks(nodes);
    CountIsFilterLength(nodes, IsTask);
    CountAmongTasks(nodes, IsComplete, IsCompletedTask);
    CountAmongTasks(nodes, IsInProgress, IsInProgressTask);
    CountAmongTasks(nodes, IsTodo, IsTodoTask);
    StatusCounts(|tasks|, Count(tasks, IsComplete), Count(tasks, IsInProgress), Count(tasks, IsTodo))
  }

  /** Counting the tasks with a property over all nodes is counting that property among the tasks. */
  lemma {:induction false} CountAmongTasks(s: seq<AppNode>, p: AppNode -> bool, q: AppNode -> bool)
    requires forall n :: q(n) == (IsTask(n) && p(n))
    ensures Count(s, q) == Count(Tasks(s), p)
  {
    if |s| > 0 {
      CountAmongTasks(s[1..], p, q);
      var t := Tasks(s[1..]);
      if IsTask(s[0]) {
        assert Tasks(s) == [s[0]] + t;
        assert ([s[0]] + t)[1..] == t;
      } else {
        assert Tasks(s) == t;
      }
    }
  }

  /** Every node has exactly one of the three statuses, absent counting as to-do. */
  lemma {:induction false} StatusesPartition(s: seq<AppNode>)
    ensures Count(s, IsComplete) + Count(s, IsInProgress) + Count(s, IsTodo) == |s|
  {
    if |s| > 0 {
      StatusesPartition(s[1..]);
      assert Count(s, IsComplete) == (if IsComplete(s[0]) then 1 else 0) + Count(s[1..], IsComplete);
      assert Count(s, IsInProgress) == (if IsInProgress(s[0]) then 1 else 0) + Count(s[1..], IsInProgress);
      assert Count(s, IsTodo) == (if IsTodo(s[0]) then 1 else 0) + Count(s[1..], IsTodo);
      match s[0].status {
        case None =>
        case Some(st) => assert st == Complete || st == InProgress || st == Todo;
      }
    }
  }

  /** The three status counts of a board add up to its task count. */
  lemma CountsAddUp(nodes: seq<AppNode>)
    ensures var c := CountsOf(nodes); c.completed + c.inProgress + c.todo == c.total
  {
    StatusesPartition(Tasks(nodes));
  }

  /**
   * `Math.round(c / t * 100)` on exact rationals: the percentage rounded to
   * the nearest integer, halves rounding up.
   */
  function RoundPercent(c: nat, t: nat): (r: int)
    requires t > 0
    ensures -(t as int) < 2 * (r * t - 100 * c) <= t
    ensures c <= t ==> 0 <= r <= 100
    ensures c == 0 ==> r == 0
    ensures c == t ==> r == 100
  {
    var r := (200 * c + t) / (2 * t);
    assert 2 * t * r <= 200 * c + t < 2 * t * r + 2 * t by {
      DivBounds(200 * c + t, 2 * t);
    }
    assert c <= t ==> r <= 100 by {
      if c <= t && r > 100 {
        MulMono(2 * t, 101, r);
      }
    }
    assert c == t ==> r == 100 by {
      if c == t {
        assert 200 * c + t == 2 * t * 100 + t;
        DivUnique(200 * c + t, 2 * t, 100);
      }
    }
    assert c == 0 ==> r == 0 by {
      if c == 0 {
        DivUnique(200 * c + t, 2 * t, 0);
      }
    }
    r
  }

  lemma DivBounds(a: nat, b: nat)
    requires b > 0
    ensures b * (a / b) <= a < b * (a / b) + b
  {
  }

  lemma MulMono(b: nat, x: nat, y: nat)
    requires x <= y
    ensures b * x <= b * y
  {
  }

  lemma DivUnique(a: nat, b: nat, q: nat)
    requires b > 0 && b * q <= a < b * q + b
    ensures a / b == q
  {
    var d := a / b;
    DivBounds(a, b);
    if d < q {
      MulMono(b, d + 1, q);
    } else if d > q {
      MulMono(b, q + 1, d);
    }
  }

  /** `progress` / `completionRate`: zero without tasks, else the rounded completed percentage. */
  function Percent(completed: nat, total: nat): (p: int)
    requires completed <= total
    ensures 0 <= p <= 100
    ensures total == 0 || completed == 0 ==> p == 0
    ensures total > 0 && completed == total ==> p == 100
    ensures total > 0 ==> -(total as int) < 2 * (p * total - 100 * completed) <= total
  {
    if total > 0 then RoundPercent(completed, total) else 0
  }

  /** The canvas panel's figures. */
  datatype PanelStats = PanelStats(counts: StatusCounts, progress: int)

  /** The panel's `stats`: the first board under the id, or all zeros when there is none. */
  function BoardStats(boards: seq<Board>, boardId: string): (r: PanelStats)
    ensures (forall i :: 0 <= i < |boards| ==> boards[i].id != boardId) ==> r == PanelStats(StatusCounts(0, 0, 0, 0), 0)
    ensures forall k :: 0 <= k < |boards| && boards[k].id == boardId && (forall j :: 0 <= j < k ==> boards[j].id != boardId) ==>
      r.counts == CountsOf(boards[k].nodes)
    ensures 0 <= r.progress <= 100
    ensures r.counts.completed + r.counts.inProgress + r.counts.todo == r.counts.total
    ensures r.counts.total == 0 ==> r.progress == 0
    ensures r.counts.total > 0 ==> r.progress == RoundPercent(r.counts.completed, r.counts.total)
  {
    match FindFirst(boards, HasId(boardId))
    case None => PanelStats(StatusCounts(0, 0, 0, 0), 0)
    case Some(b) =>
      var c := CountsOf(b.nodes);
      CountsAddUp(b.nodes);
      FirstUnderId(boards, boardId);
      PanelStats(c, Percent(c.completed, c.total))
  }

  /** The dashboard's selection: "all", or the boards under one id. */
  function ActiveBoards(boards: seq<Board>, selected: string): (r: seq<Board>)
    ensures selected == "all" ==> r == boards
    ensures selected != "all" ==> forall b :: b in r <==> b in boards && b.id == selected
    ensures selected != "all" ==> |r| == Count(boards, HasId(selected))
    ensures selected != "all" && |boards| == 1 ==> r == (if boards[0].id == selected then boards else [])
  {
    if selected == "all" then boards
    else
      CountIsFilterLength(boards, HasId(selected));
      assert |boards| == 1 ==> boards[1..] == [];
      Filter(boards, HasId(selected))
  }

  /** Selecting distributes over a split of the boards, so the selected boards keep their order. */
  lemma ActiveBoardsSplit(a: seq<Board>, b: seq<Board>, selected: string)
    ensures ActiveBoards(a + b, selected) == ActiveBoards(a, selected) + ActiveBoards(b, selected)
  {
    if selected != "all" {
      FilterAppend(a, b, HasId(selected));
    }
  }

  /** One bar of the per-board chart. */
  datatype ProgressRow = ProgressRow(name: string, completed: nat, inProgress: nat, todo: nat)

  /** `boardProgressData`: one row per selected board, in order, with its three status counts. */
  function ProgressRows(active: seq<Board>): (rows: seq<ProgressRow>)
    ensures |rows| == |active|
    ensures forall i :: 0 <= i < |active| ==>
      var c := CountsOf(active[i].nodes);
      rows[i] == ProgressRow(active[i].name, c.completed, c.inProgress, c.todo)
  {
    seq(|active|, i requires 0 <= i < |active| =>
      var c := CountsOf(active[i].nodes);
      ProgressRow(active[i].name, c.completed, c.inProgress, c.todo))
  }

  /** A column total of the rows (summed front to back, as `forEach` does). */
  function SumRows(rows: seq<ProgressRow>, column: ProgressRow -> nat): nat {
    if |rows| == 0 then 0 else SumRows(rows[..|rows| - 1], column) + column(rows[|rows| - 1])
  }

  function CompletedOf(r: ProgressRow): nat { r.completed }
  function InProgressOf(r: ProgressRow): nat { r.inProgress }
  function TodoOf(r: ProgressRow): nat { r.todo }

  /** Extending the summed prefix by one row adds that row's value. */
  lemma SumRowsStep(rows: seq<ProgressRow>, i: int, column: ProgressRow -> nat)
    requires 0 <= i < |rows|
    ensures SumRows(rows[..i + 1], column) == SumRows(rows[..i], column) + column(rows[i])
  {
    assert rows[..i + 1][..i] == rows[..i];
  }

  /** One row extends each of the three column totals by its own counts. */
  lemma DistributionStep(rows: seq<ProgressRow>, i: int)
    requires 0 <= i < |rows|
    ensures SumRows(rows[..i + 1], CompletedOf) == SumRows(rows[..i], CompletedOf) + rows[i].completed
    ensures SumRows(rows[..i + 1], InProgressOf) == SumRows(rows[..i], InProgressOf) + rows[i].inProgress
    ensures SumRows(rows[..i + 1], TodoOf) == SumRows(rows[..i], TodoOf) + rows[i].todo
  {
    SumRowsStep(rows, i, CompletedOf);
    SumRowsStep(rows, i, InProgressOf);
    SumRowsStep(rows, i, TodoOf);
  }

  /** The pie's three slices. */
  datatype Distribution = Distribution(completed: nat, inProgress: nat, todo: nat)

  /** `globalStatusDistribution`: each slice is the column total of the per-board rows. */
  method StatusDistribution(active: seq<Board>) returns (d: Distribution)
    ensures d.completed == SumRows(ProgressRows(active), CompletedOf)
    ensures d.inProgress == SumRows(ProgressRows(active), InProgressOf)
    ensures d.todo == SumRows(ProgressRows(active), TodoOf)
  {
    var rows := ProgressRows(active);
    var completed, inProgress, todo := 0, 0, 0;
    var i := 0;
    while i < |rows|
      invariant 0 <= i <= |rows|
      invariant completed == SumRows(rows[..i], CompletedOf)
      invariant inProgress == SumRows(rows[..i], InProgressOf)
      invariant todo == SumRows(rows[..i], TodoOf)
    {
      DistributionStep(rows, i);
      completed := completed + rows[i].completed;
      inProgress := inProgress + rows[i].inProgress;
      todo := todo + rows[i].todo;
      i := i + 1;
    }
    assert rows[..|rows|] == rows;
    d := Distribution(completed, inProgress, todo);
  }

  /** The headline figures, always over every board whatever is selected. */
  datatype GlobalStats = GlobalStats(totalBoards: nat, totalTasks: nat, completionRate: int)

  function TaskCount(b: Board): nat { |Tasks(b.nodes)| }

  function CompletedCount(b: Board): nat { Count(b.nodes, IsCompletedTask) }

  /** A total over the boards (the `reduce` from 0). */
  function SumBoards(boards: seq<Board>, f: Board -> nat): nat {
    if |boards| == 0 then 0 else SumBoards(boards[..|boards| - 1], f) + f(boards[|boards| - 1])
  }

  /** Counting completed tasks over all nodes is counting completed among the tasks. */
  lemma CompletedTasksCount(s: seq<AppNode>)
    ensures Count(s, IsCompletedTask) == Count(Tasks(s), IsComplete)
  {
    CountAmongTasks(s, IsComplete, IsCompletedTask);
  }

  lemma {:induction false} SumBoardsBound(boards: seq<Board>)
    ensures SumBoards(boards, CompletedCount) <= SumBoards(boards, TaskCount)
  {
    if |boards| > 0 {
      var b := boards[|boards| - 1];
      SumBoardsBound(boards[..|boards| - 1]);
      CompletedTasksCount(b.nodes);
    }
  }

  /** `globalStats`. */
  function Global(boards: seq<Board>): (g: GlobalStats)
    ensures g.totalBoards == |boards| && g.totalTasks == SumBoards(boards, TaskCount)
    ensures 0 <= g.completionRate <= 100
    ensures g.totalTasks == 0 ==> g.completionRate == 0
    ensures g.totalTasks > 0 ==> g.completionRate == RoundPercent(SumBoards(boards, CompletedCount), g.totalTasks)
  {
    SumBoardsBound(boards);
    var tasks := SumBoards(boards, TaskCount);
    GlobalStats(|boards|, tasks, Percent(SumBoards(boards, CompletedCount), tasks))
  }

  /** With "all" selected, the pie's completed slice is the headline's completed-task total. */
  lemma {:induction false} AllSelectedAgrees(boards: seq<Board>)
    ensures SumRows(ProgressRows(ActiveBoards(boards, "all")), CompletedOf) == SumBoards(boards, CompletedCount)
  {
    assert ActiveBoards(boards, "all") == boards;
    if |boards| > 0 {
      var n := |boards| - 1;
      var rows := ProgressRows(boards);
      AllSelectedAgrees(boards[..n]);
      assert rows[..n] == ProgressRows(boards[..n]);
      assert SumRows(rows, CompletedOf) == SumRows(rows[..n], CompletedOf) + rows[n].completed;
      CompletedTasksCount(boards[n].nodes);
      assert rows[n].completed == CompletedCount(boards[n]);
    }
  }
}
