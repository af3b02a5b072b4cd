/**
 * The project timeline: every task of every board, dated tasks by date
 * and undated ones last, each with a marker coloured by its status and
 * whether its date has passed. `isPast`, `isToday` and the date formatter
 * read the clock and the locale, so they are parameters.
 */
module Timeline {
  import opened Wrappers
  import opened Types
  import opened Collections
  import opened TaskViews

  /** All task nodes of all boards, tagged with their board. */
  function AllTasks(boards: seq<Board>): (r: seq<TaggedTask>)
    ensures forall t :: t in r ==> t.node.kind == Task
    ensures forall i, j :: 0 <= i < |boards| && 0 <= j < |boards[i].nodes| && IsTask(boards[i].nodes[j]) ==>
      Tag(boards[i], boards[i].nodes[j]) in r
    ensures forall t :: t in r ==> exists i, j :: 0 <= i < |boards| && 0 <= j < |boards[i].nodes| && t == Tag(boards[i], boards[i].nodes[j])
    ensures |r| == CountAll(boards, IsTask)
    ensures r == Filter(AllTagged(boards), Keeps(IsTask))
  {
    TagAllIsFilter(boards, IsTask);
    TagAll(boards, IsTask)
  }

  /** The timeline says "No tasks found across any boards." exactly when no board holds a task. */
  lemma EmptyIffNoTask(boards: seq<Board>)
    ensures |AllTasks(boards)| == 0 <==>
      forall i, j :: 0 <= i < |boards| && 0 <= j < |boards[i].nodes| ==> boards[i].nodes[j].kind != Task
  {
    var r := AllTasks(boards);
    if |r| > 0 {
      assert r[0] in r;
    }
  }

  /** The comparator handed to `sort`, as written: an undated left side always compares greater. */
  function CompareAsWritten(a: TaggedTask, b: TaggedTask): int {
    if !Dated(a) then 1
    else if !Dated(b) then -1
    else Time(a) - Time(b)
  }

  function Sign(x: int): int {
    if x < 0 then -1 else if x > 0 then 1 else 0
  }

  /**
   * The comparator as written is not consistent: two undated tasks each
   * compare greater than the other, so the order `sort` produces among them
   * is left to the engine.
   */
  lemma AsWrittenNotAntisymmetric(a: TaggedTask, b: TaggedTask)
    requires !Dated(a) && !Dated(b)
    ensures CompareAsWritten(a, b) > 0 && CompareAsWritten(b, a) > 0
    ensures Sign(CompareAsWritten(a, b)) != -Sign(CompareAsWritten(b, a))
  {
  }

  /** The comparator as intended: undated tasks after dated ones, and tied with each other. */
  function Compare(a: TaggedTask, b: TaggedTask): (r: int)
    ensures Dated(a) && Dated(b) ==> r == CompareAsWritten(a, b)
    ensures !Dated(a) && Dated(b) ==> r > 0
    ensures Dated(a) && !Dated(b) ==> r < 0
    ensures !Dated(a) && !Dated(b) ==> r == 0
  {
    if !Dated(a) && !Dated(b) then 0 else CompareAsWritten(a, b)
  }

  /** The corrected comparator is consistent: swapping the sides flips the sign. */
  lemma CompareAntisymmetric(a: TaggedTask, b: TaggedTask)
    ensures Sign(Compare(a, b)) == -Sign(Compare(b, a))
  {
  }

  /** ...and transitive, so it is a total preorder. */
  lemma CompareTransitive(a: TaggedTask, b: TaggedTask, c: TaggedTask)
    requires Compare(a, b) <= 0 && Compare(b, c) <= 0
    ensures Compare(a, c) <= 0
  {
  }

  predicate Undated(t: TaggedTask) { !Dated(t) }

  /** Dated tasks by time followed by undated ones are ordered by the corrected comparator. */
  lemma DatedThenUndated(sorted: seq<TaggedTask>, undated: seq<TaggedTask>)
    requires SortedByTime(sorted)
    requires forall i :: 0 <= i < |sorted| ==> Dated(sorted[i])
    requires forall i :: 0 <= i < |undated| ==> !Dated(undated[i])
    ensures forall i :: 0 <= i < |sorted + undated| ==> (Dated((sorted + undated)[i]) <==> i < |sorted|)
    ensures forall i, j :: 0 <= i < j < |sorted + undated| ==> Compare((sorted + undated)[i], (sorted + undated)[j]) <= 0
  {
    var r := sorted + undated;
    SplitAtSeam(sorted, undated, Dated);
    forall i, j | 0 <= i < j < |r| ensures Compare(r[i], r[j]) <= 0 {
      if j < |sorted| {
        assert r[i] == sorted[i] && r[j] == sorted[j];
      }
    }
  }

  /**
   * The order the timeline shows: the dated tasks by time, then the
   * undated ones in their original order. It is ordered by the corrected
   * comparator and is a permutation of the tasks.
   */
  function TimelineOrder(tasks: seq<TaggedTask>): (r: seq<TaggedTask>)
    ensures multiset(r) == multiset(tasks)
    ensures forall i, j :: 0 <= i < j < |r| ==> Compare(r[i], r[j]) <= 0
    ensures forall i :: 0 <= i < |r| ==> (Dated(r[i]) <==> i < Count(tasks, Dated))
  {
    var sorted := SortByTime(Filter(tasks, Dated));
    TimelineOrderFacts(tasks, sorted, Filter(tasks, Undated));
    sorted + Filter(tasks, Undated)
  }

  /** The three guarantees of `TimelineOrder`, for the dated tasks sorted and the undated ones after. */
  lemma TimelineOrderFacts(tasks: seq<TaggedTask>, sorted: seq<TaggedTask>, undated: seq<TaggedTask>)
    requires sorted == SortByTime(Filter(tasks, Dated)) && undated == Filter(tasks, Undated)
    ensures multiset(sorted + undated) == multiset(tasks)
    ensures forall i, j :: 0 <= i < j < |sorted + undated| ==> Compare((sorted + undated)[i], (sorted + undated)[j]) <= 0
    ensures forall i :: 0 <= i < |sorted + undated| ==> (Dated((sorted + undated)[i]) <==> i < Count(tasks, Dated))
  {
    PartitionPermutes(tasks, Dated, Undated);
    CountIsFilterLength(tasks, Dated);
    PermutationKeeps(sorted, Filter(tasks, Dated), Dated);
    DatedThenUndated(sorted, undated);
  }

  /** The timeline's entries, in the corrected order. */
  function TimelineTasks(boards: seq<Board>): (r: seq<TaggedTask>)
    ensures multiset(r) == multiset(AllTasks(boards))
  {
    TimelineOrder(AllTasks(boards))
  }

  datatype Marker = Green | Red | Primary

  /** How one timeline entry is drawn. */
  datatype Entry = Entry(marker: Marker, dateText: string, destructive: bool, struck: bool)

  const NoDate: string := "No Date"

  /** `date && isPast(date) && !isToday(date)`. */
  predicate Overdue(t: TaggedTask, isPast: Instant -> bool, isToday: Instant -> bool) {
    Dated(t) && isPast(Time(t)) && !isToday(Time(t))
  }

  /** One entry: marker colour, date line, red date text and struck-through content. */
  function EntryOf(t: TaggedTask, isPast: Instant -> bool, isToday: Instant -> bool, format: Instant -> string): (e: Entry)
    ensures e.marker == Green <==> t.node.status == Some(Complete)
    ensures e.marker == Red <==> t.node.status != Some(Complete) && Overdue(t, isPast, isToday)
    ensures !Dated(t) ==> e.dateText == NoDate && e.marker != Red
    ensures Dated(t) ==> e.dateText == format(Time(t))
    ensures e.struck <==> t.node.status == Some(Complete)
  {
    var complete := t.node.status == Some(Complete);
    var overdue := Overdue(t, isPast, isToday);
    Entry(
      if complete then Green else if overdue then Red else Primary,
      if Dated(t) then format(Time(t)) else NoDate,
      overdue && !complete,
      complete)
  }

  /** The date text turns red exactly when the marker does. */
  lemma DestructiveIffRedMarker(t: TaggedTask, isPast: Instant -> bool, isToday: Instant -> bool, format: Instant -> string)
    ensures EntryOf(t, isPast, isToday, format).destructive <==> EntryOf(t, isPast, isToday, format).marker == Red
  {
  }
}
