/**
 * The project calendar: every dated task of every board, counted per day
 * to highlight the days that hold tasks, and listed by date.
 * The day of a time value (`toDateString`, which depends on the local time
 * zone) is the parameter `dayOf`.
 */
module Calendar {
  import opened Types
  import opened Collections
  import opened TaskViews

  /** The dated task nodes of all boards, tagged with their board. */
  function TasksWithDates(boards: seq<Board>): (r: seq<TaggedTask>)
    ensures forall t :: t in r ==> t.node.kind == Task && Dated(t)
    ensures forall i, j :: 0 <= i < |boards| && 0 <= j < |boards[i].nodes| && IsDatedTask(boards[i].nodes[j]) ==>
      Tag(boards[i], boards[i].nodes[j]) in r
    ensures forall t :: t in r ==> exists i, j :: 0 <= i < |boards| && 0 <= j < |boards[i].nodes| && t == Tag(boards[i], boards[i].nodes[j])
    ensures |r| == CountAll(boards, IsDatedTask)
    ensures r == Filter(AllTagged(boards), Keeps(IsDatedTask))
  {
    TagAllIsFilter(boards, IsDatedTask);
    TagAll(boards, IsDatedTask)
  }

  /** The calendar says "No tasks scheduled." exactly when no board holds a dated task. */
  lemma EmptyIffNoDatedTask(boards: seq<Board>)
    ensures |TasksWithDates(boards)| == 0 <==>
      forall i, j :: 0 <= i < |boards| && 0 <= j < |boards[i].nodes| ==> !IsDatedTask(boards[i].nodes[j])
  {
    var r := TasksWithDates(boards);
    if |r| > 0 {
      assert r[0] in r;
    }
  }

  /** The day key of a task. */
  function DayOf(t: TaggedTask, dayOf: Instant -> string): string {
    dayOf(Time(t))
  }

  /** A dated task on the day `key`. */
  function OnDay(dayOf: Instant -> string, key: string): TaggedTask -> bool {
    t => Dated(t) && DayOf(t, dayOf) == key
  }

  /** The days that hold at least one dated task. */
  function Days(tasks: seq<TaggedTask>, dayOf: Instant -> string): set<string> {
    set i | 0 <= i < |tasks| && Dated(tasks[i]) :: DayOf(tasks[i], dayOf)
  }

  lemma DaysAppend(prefix: seq<TaggedTask>, t: TaggedTask, dayOf: Instant -> string)
    ensures Days(prefix + [t], dayOf) == Days(prefix, dayOf) + (if Dated(t) then {DayOf(t, dayOf)} else {})
  {
    var tasks := prefix + [t];
    forall k | k in Days(tasks, dayOf) ensures k in Days(prefix, dayOf) + (if Dated(t) then {DayOf(t, dayOf)} else {}) {
      var i :| 0 <= i < |tasks| && Dated(tasks[i]) && DayOf(tasks[i], dayOf) == k;
      if i < |prefix| {
        assert tasks[i] == prefix[i];
      }
    }
    forall k | k in Days(prefix, dayOf) ensures k in Days(tasks, dayOf) {
      var i :| 0 <= i < |prefix| && Dated(prefix[i]) && DayOf(prefix[i], dayOf) == k;
      assert tasks[i] == prefix[i];
    }
    if Dated(t) {
      assert tasks[|prefix|] == t;
    }
  }

  /**
   * `dateMap`: for each day, the number of dated tasks on it, built by
   * walking the tasks in order and bumping the day's count
   * (`map.get(key) || 0` reads an absent day as zero).
   */
  function DateMap(tasks: seq<TaggedTask>, dayOf: Instant -> string): (m: map<string, nat>)
    ensures m.Keys == Days(tasks, dayOf)
    ensures forall k :: k in m ==> m[k] > 0
  {
    if |tasks| == 0 then map[]
    else
      var n := |tasks| - 1;
      assert tasks == tasks[..n] + [tasks[n]];
      DaysAppend(tasks[..n], tasks[n], dayOf);
      var m := DateMap(tasks[..n], dayOf);
      if Dated(tasks[n]) then
        var key := DayOf(tasks[n], dayOf);
        m[key := (if key in m then m[key] else 0) + 1]
      else m
  }

  /** The count kept for a day is the number of dated tasks on that day. */
  lemma {:induction false} DateMapCounts(tasks: seq<TaggedTask>, dayOf: Instant -> string, key: string)
    requires key in DateMap(tasks, dayOf)
    ensures DateMap(tasks, dayOf)[key] == Count(tasks, OnDay(dayOf, key))
  {
    var n := |tasks| - 1;
    var prefix := tasks[..n];
    assert tasks == prefix + [tasks[n]];
    CountAppend(prefix, [tasks[n]], OnDay(dayOf, key));
    if key in DateMap(prefix, dayOf) {
      DateMapCounts(prefix, dayOf, key);
    } else {
      assert Count(prefix, OnDay(dayOf, key)) == 0 by {
        forall i | 0 <= i < |prefix| ensures !OnDay(dayOf, key)(prefix[i]) {
          if Dated(prefix[i]) {
            assert DayOf(prefix[i], dayOf) in Days(prefix, dayOf);
          }
        }
      }
    }
  }

  /** `hasTask`: a calendar day is highlighted when the map holds its key. */
  predicate Highlighted(m: map<string, nat>, day: string) {
    day in m
  }

  /** A day is highlighted exactly when some dated task of some board falls on it. */
  lemma HighlightedIffTaskThatDay(boards: seq<Board>, dayOf: Instant -> string, day: string)
    ensures Highlighted(DateMap(TasksWithDates(boards), dayOf), day) <==>
      exists t :: t in TasksWithDates(boards) && DayOf(t, dayOf) == day
  {
    var tasks := TasksWithDates(boards);
    assert forall t :: t in tasks ==> Dated(t);
    HighlightedIffDatedTask(tasks, dayOf, day);
  }

  /** Over a list of dated tasks, a day is in the map exactly when one of them falls on it. */
  lemma HighlightedIffDatedTask(tasks: seq<TaggedTask>, dayOf: Instant -> string, day: string)
    requires forall t :: t in tasks ==> Dated(t)
    ensures Highlighted(DateMap(tasks, dayOf), day) <==> exists t :: t in tasks && DayOf(t, dayOf) == day
  {
    var m := DateMap(tasks, dayOf);
    assert m.Keys == Days(tasks, dayOf);
    if day in m {
      var i :| 0 <= i < |tasks| && Dated(tasks[i]) && DayOf(tasks[i], dayOf) == day;
      assert tasks[i] in tasks;
    }
    if t :| t in tasks && DayOf(t, dayOf) == day {
      var i :| 0 <= i < |tasks| && tasks[i] == t;
      assert Dated(tasks[i]);
      assert DayOf(tasks[i], dayOf) in Days(tasks, dayOf);
    }
  }

  predicate Distinct(ks: seq<string>) {
    forall i, j :: 0 <= i < j < |ks| ==> ks[i] != ks[j]
  }

  /** The days of the map in the order their first task appears. */
  function DayKeys(tasks: seq<TaggedTask>, dayOf: Instant -> string): (ks: seq<string>)
    ensures Distinct(ks)
    ensures forall k :: k in ks <==> k in DateMap(tasks, dayOf)
  {
    if |tasks| == 0 then []
    else
      var n := |tasks| - 1;
      var ks := DayKeys(tasks[..n], dayOf);
      if Dated(tasks[n]) && DayOf(tasks[n], dayOf) !in ks then ks + [DayOf(tasks[n], dayOf)] else ks
  }

  /** The sum of the counts of the listed days. */
  function SumCounts(ks: seq<string>, m: map<string, nat>): nat
    requires forall k :: k in ks ==> k in m
  {
    if |ks| == 0 then 0 else SumCounts(ks[..|ks| - 1], m) + m[ks[|ks| - 1]]
  }

  lemma {:induction false} SumFrame(ks: seq<string>, m: map<string, nat>, m': map<string, nat>)
    requires forall k :: k in ks ==> k in m && k in m' && m[k] == m'[k]
    ensures SumCounts(ks, m) == SumCounts(ks, m')
  {
    if |ks| > 0 {
      SumFrame(ks[..|ks| - 1], m, m');
    }
  }

  lemma {:induction false} SumBump(ks: seq<string>, m: map<string, nat>, m': map<string, nat>, key: string)
    requires Distinct(ks) && key in ks
    requires forall k :: k in ks ==> k in m && k in m'
    requires forall k :: k in ks && k != key ==> m'[k] == m[k]
    requires m'[key] == m[key] + 1
    ensures SumCounts(ks, m') == SumCounts(ks, m) + 1
  {
    var n := |ks| - 1;
    var init := ks[..n];
    assert forall k :: k in init ==> k in ks;
    if ks[n] == key {
      assert key !in init;
      SumFrame(init, m, m');
    } else {
      assert key in init by { var i :| 0 <= i < |ks| && ks[i] == key; assert init[i] == key; }
      SumBump(init, m, m', key);
    }
  }

  /** The per-day counts add up to the number of dated tasks: every task is counted on exactly one day. */
  lemma {:induction false} CountsSumToTasks(tasks: seq<TaggedTask>, dayOf: Instant -> string)
    ensures SumCounts(DayKeys(tasks, dayOf), DateMap(tasks, dayOf)) == Count(tasks, Dated)
  {
    if |tasks| > 0 {
      var n := |tasks| - 1;
      CountsSumToTasks(tasks[..n], dayOf);
      CountsStep(tasks, dayOf);
    }
  }

  /** Adding the last task adds one to the day total exactly when it is dated. */
  lemma CountsStep(tasks: seq<TaggedTask>, dayOf: Instant -> string)
    requires |tasks| > 0
    requires var prefix := tasks[..|tasks| - 1];
      SumCounts(DayKeys(prefix, dayOf), DateMap(prefix, dayOf)) == Count(prefix, Dated)
    ensures SumCounts(DayKeys(tasks, dayOf), DateMap(tasks, dayOf)) == Count(tasks, Dated)
  {
    LastCounted(tasks, |tasks| - 1);
    if !Dated(tasks[|tasks| - 1]) {
      UndatedStep(tasks, dayOf);
    } else if DayOf(tasks[|tasks| - 1], dayOf) in DayKeys(tasks[..|tasks| - 1], dayOf) {
      SeenDaySum(tasks, dayOf);
    } else {
      NewDaySum(tasks, dayOf);
    }
  }

  /** An undated last task changes neither the days nor the counts. */
  lemma UndatedStep(tasks: seq<TaggedTask>, dayOf: Instant -> string)
    requires |tasks| > 0 && !Dated(tasks[|tasks| - 1])
    ensures DayKeys(tasks, dayOf) == DayKeys(tasks[..|tasks| - 1], dayOf)
    ensures DateMap(tasks, dayOf) == DateMap(tasks[..|tasks| - 1], dayOf)
  {
  }

  lemma SeenDaySum(tasks: seq<TaggedTask>, dayOf: Instant -> string)
    requires |tasks| > 0 && Dated(tasks[|tasks| - 1])
    requires DayOf(tasks[|tasks| - 1], dayOf) in DayKeys(tasks[..|tasks| - 1], dayOf)
    ensures var prefix := tasks[..|tasks| - 1];
      SumCounts(DayKeys(tasks, dayOf), DateMap(tasks, dayOf)) == SumCounts(DayKeys(prefix, dayOf), DateMap(prefix, dayOf)) + 1
  {
    var prefix := tasks[..|tasks| - 1];
    SeenDayStep(tasks, dayOf);
    SumBump(DayKeys(prefix, dayOf), DateMap(prefix, dayOf), DateMap(tasks, dayOf), DayOf(tasks[|tasks| - 1], dayOf));
  }

  lemma NewDaySum(tasks: seq<TaggedTask>, dayOf: Instant -> string)
    requires |tasks| > 0 && Dated(tasks[|tasks| - 1])
    requires DayOf(tasks[|tasks| - 1], dayOf) !in DayKeys(tasks[..|tasks| - 1], dayOf)
    ensures var prefix := tasks[..|tasks| - 1];
      SumCounts(DayKeys(tasks, dayOf), DateMap(tasks, dayOf)) == SumCounts(DayKeys(prefix, dayOf), DateMap(prefix, dayOf)) + 1
  {
    var prefix := tasks[..|tasks| - 1];
    NewDayStep(tasks, dayOf);
    SumFrame(DayKeys(prefix, dayOf), DateMap(prefix, dayOf), DateMap(tasks, dayOf));
  }

  /** Counting dated tasks splits off the last task. */
  lemma LastCounted(tasks: seq<TaggedTask>, n: int)
    requires n == |tasks| - 1 >= 0
    ensures Count(tasks, Dated) == Count(tasks[..n], Dated) + (if Dated(tasks[n]) then 1 else 0)
  {
    assert tasks == tasks[..n] + [tasks[n]];
    CountAppend(tasks[..n], [tasks[n]], Dated);
  }

  /** A last task on a day already listed bumps that day's count and adds no key. */
  lemma SeenDayStep(tasks: seq<TaggedTask>, dayOf: Instant -> string)
    requires |tasks| > 0 && Dated(tasks[|tasks| - 1])
    requires DayOf(tasks[|tasks| - 1], dayOf) in DayKeys(tasks[..|tasks| - 1], dayOf)
    ensures var prefix := tasks[..|tasks| - 1]; var key := DayOf(tasks[|tasks| - 1], dayOf);
      var m := DateMap(prefix, dayOf); var m' := DateMap(tasks, dayOf);
      && DayKeys(tasks, dayOf) == DayKeys(prefix, dayOf)
      && key in m && key in m' && m'[key] == m[key] + 1
      && forall k :: k in m ==> k in m' && (k != key ==> m'[k] == m[k])
  {
  }

  /** A last task on a new day appends that day with count one. */
  lemma NewDayStep(tasks: seq<TaggedTask>, dayOf: Instant -> string)
    requires |tasks| > 0 && Dated(tasks[|tasks| - 1])
    requires DayOf(tasks[|tasks| - 1], dayOf) !in DayKeys(tasks[..|tasks| - 1], dayOf)
    ensures var prefix := tasks[..|tasks| - 1]; var key := DayOf(tasks[|tasks| - 1], dayOf);
      var ks := DayKeys(prefix, dayOf);
      && DayKeys(tasks, dayOf) == ks + [key]
      && (forall k :: k in ks ==> k in DateMap(prefix, dayOf) && k in DateMap(tasks, dayOf) && DateMap(prefix, dayOf)[k] == DateMap(tasks, dayOf)[k])
      && key in DateMap(tasks, dayOf) && DateMap(tasks, dayOf)[key] == 1
      && SumCounts(ks + [key], DateMap(tasks, dayOf)) == SumCounts(ks, DateMap(tasks, dayOf)) + 1
  {
    var prefix := tasks[..|tasks| - 1];
    var key := DayOf(tasks[|tasks| - 1], dayOf);
    var ks := DayKeys(prefix, dayOf);
    assert (ks + [key])[..|ks|] == ks;
  }

  /** Over the calendar's own list, the day counts add up to the number of dated task nodes on all boards. */
  lemma DayCountsCoverDatedTasks(boards: seq<Board>, dayOf: Instant -> string)
    ensures var tasks := TasksWithDates(boards);
      SumCounts(DayKeys(tasks, dayOf), DateMap(tasks, dayOf)) == CountAll(boards, IsDatedTask)
  {
    var tasks := TasksWithDates(boards);
    CountsSumToTasks(tasks, dayOf);
    assert forall i :: 0 <= i < |tasks| ==> Dated(tasks[i]) by {
      forall i | 0 <= i < |tasks| ensures Dated(tasks[i]) {
        assert tasks[i] in tasks;
      }
    }
  }

  /** The "Upcoming Tasks" list: the dated tasks sorted by time. */
  function UpcomingTasks(boards: seq<Board>): (r: seq<TaggedTask>)
    ensures SortedByTime(r)
    ensures multiset(r) == multiset(TasksWithDates(boards))
    ensures forall i :: 0 <= i < |r| ==> Dated(r[i]) && r[i].node.kind == Task
  {
    var tasks := TasksWithDates(boards);
    var r := SortByTime(tasks);
    PermutationKeeps(r, tasks, (t: TaggedTask) => IsDatedTask(t.node));
    r
  }
}
