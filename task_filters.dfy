/**
 * The `useTaskFilters` hook: a filter record held as state, the list of the tasks
 * that pass it, and the two ways the record changes (a partial merge and a reset).
 *
 * A task passes when it passes each of five independent tests, in the order the hook
 * applies them: search text, category, priority, completed visibility, date range.
 */
module TaskFilters {
  import opened Wrappers
  import opened Lists
  import opened Records
  import Text
  import Dates

  /** The values of the date-range select: "all", "today", "tomorrow", "this_week", "overdue". */
  datatype DateRange = AllTime | DueToday | DueTomorrow | ThisWeek | Overdue

  datatype Filters = Filters(
    search: string,
    categories: seq<string>,
    priorities: seq<string>,
    dateRange: DateRange,
    showCompleted: bool)

  /** The record the hook starts with and `clearFilters` restores. */
  const DefaultFilters := Filters("", [], [], AllTime, true)

  /** An object handed to `updateFilters`: `None` is a key the object does not carry. */
  datatype FiltersPatch = FiltersPatch(
    search: Option<string>,
    categories: Option<seq<string>>,
    priorities: Option<seq<string>>,
    dateRange: Option<DateRange>,
    showCompleted: Option<bool>)

  const NoFilterChange := FiltersPatch(None, None, None, None, None)

  /** An empty search restricts nothing; otherwise the title must contain it, ignoring case. */
  predicate PassesSearch(f: Filters, t: Task) {
    f.search == [] || Text.Contains(Text.ToLower(t.title), Text.ToLower(f.search))
  }

  /** `categories.includes(task.categoryId)`, when any category is selected. */
  predicate PassesCategory(f: Filters, t: Task) {
    f.categories == [] || (t.categoryId.Some? && t.categoryId.value in f.categories)
  }

  predicate PassesPriority(f: Filters, t: Task) {
    f.priorities == [] || t.priority in f.priorities
  }

  predicate PassesCompleted(f: Filters, t: Task) {
    f.showCompleted || !t.completed
  }

  /** The test of each date range on a due instant, as the hook's `switch` writes it. */
  predicate InRange(r: DateRange, due: int, now: int) {
    match r
    case AllTime => true
    case DueToday => Dates.IsToday(due, now)
    case DueTomorrow => Dates.IsTomorrow(due, now)
    case ThisWeek => !(due < Dates.StartOfWeek(now) || due > Dates.EndOfWeek(now))
    case Overdue => !(!Dates.IsPast(due, now) || Dates.IsToday(due, now))
  }

  /** Any range but "all" drops a task without a due date. */
  predicate PassesDate(f: Filters, t: Task, now: int) {
    f.dateRange == AllTime || (t.dueDate.Some? && InRange(f.dateRange, t.dueDate.value, now))
  }

  predicate Passes(f: Filters, t: Task, now: int) {
    PassesSearch(f, t) && PassesCategory(f, t) && PassesPriority(f, t)
    && PassesCompleted(f, t) && PassesDate(f, t, now)
  }

  /** The callback handed to `tasks.filter`. */
  function Keep(f: Filters, now: int): Task -> bool {
    (t: Task) => Passes(f, t, now)
  }

  /**
   * `filteredTasks`: no list gives no task; otherwise the tasks that pass, in their
   * order, each decided on its own.
   */
  function FilteredTasks(tasks: Option<seq<Task>>, f: Filters, now: int): (r: seq<Task>)
    ensures tasks.None? ==> r == []
    ensures tasks.Some? ==> IsSubsequence(r, tasks.value)
    ensures tasks.Some? ==> forall t :: t in r <==> t in tasks.value && Passes(f, t, now)
  {
    match tasks
    case None => []
    case Some(s) =>
      FilterMembers(s, Keep(f, now));
      FilterIsSubsequence(s, Keep(f, now));
      Filter(s, Keep(f, now))
  }

  /** `{ ...prev, ...newFilters }`. */
  function Merge(f: Filters, p: FiltersPatch): Filters {
    Filters(
      p.search.GetOr(f.search),
      p.categories.GetOr(f.categories),
      p.priorities.GetOr(f.priorities),
      p.dateRange.GetOr(f.dateRange),
      p.showCompleted.GetOr(f.showCompleted))
  }

  /**
   * The date windows written as intervals of instants: today and tomorrow are
   * half-open days, the week is closed at both ends, and overdue is everything before
   * the start of today.
   */
  predicate InWindow(r: DateRange, due: int, now: int) {
    match r
    case AllTime => true
    case DueToday => Dates.StartOfDay(now) <= due < Dates.StartOfTomorrow(now)
    case DueTomorrow => Dates.StartOfTomorrow(now) <= due < Dates.StartOfTomorrow(now) + Dates.DayLength
    case ThisWeek => Dates.StartOfWeek(now) <= due <= Dates.EndOfWeek(now)
    case Overdue => due < Dates.StartOfDay(now)
  }

  /** Each range test accepts exactly the instants of its window. */
  lemma RangeIsWindow(r: DateRange, due: int, now: int)
    ensures InRange(r, due, now) <==> InWindow(r, due, now)
  {
    match r
    case DueToday => Dates.TodayIff(due, now);
    case DueTomorrow => Dates.TomorrowIff(due, now);
    case Overdue => Dates.OverdueIff(due, now);
    case _ =>
  }

  /**
   * The tasks kept are those of the list for which each test either is switched off
   * (an empty search or selection, completed shown, "all") or holds.
   */
  lemma KeptIff(s: seq<Task>, f: Filters, now: int, t: Task)
    ensures t in FilteredTasks(Some(s), f, now) <==>
      && t in s
      && (f.search == [] || Text.Contains(Text.ToLower(t.title), Text.ToLower(f.search)))
      && (f.categories == [] || (t.categoryId.Some? && t.categoryId.value in f.categories))
      && (f.priorities == [] || t.priority in f.priorities)
      && (f.showCompleted || !t.completed)
      && (f.dateRange == AllTime || (t.dueDate.Some? && InWindow(f.dateRange, t.dueDate.value, now)))
  {
    if t.dueDate.Some? {
      RangeIsWindow(f.dateRange, t.dueDate.value, now);
    }
  }

  /** With the default (or cleared) record every task passes, in order. */
  lemma {:induction false} DefaultKeepsAll(s: seq<Task>, now: int)
    ensures FilteredTasks(Some(s), DefaultFilters, now) == s
  {
    FilterAll(s, Keep(DefaultFilters, now));
  }

  /** Each task is decided on its own: filtering a concatenation filters each part. */
  lemma FilteredAppend(a: seq<Task>, b: seq<Task>, f: Filters, now: int)
    ensures FilteredTasks(Some(a + b), f, now) == FilteredTasks(Some(a), f, now) + FilteredTasks(Some(b), f, now)
  {
    FilterAppend(a, b, Keep(f, now));
  }

  /**
   * Hiding completed tasks keeps an order-preserving part of what showing them keeps,
   * and no completed task.
   */
  lemma HidingCompleted(s: seq<Task>, f: Filters, now: int)
    ensures var hidden := FilteredTasks(Some(s), f.(showCompleted := false), now);
      && IsSubsequence(hidden, FilteredTasks(Some(s), f.(showCompleted := true), now))
      && forall t :: t in hidden ==> !t.completed
  {
    FilterMono(s, Keep(f.(showCompleted := false), now), Keep(f.(showCompleted := true), now));
  }

  /** Merging a patch that carries no key changes nothing. */
  lemma MergeNothing(f: Filters)
    ensures Merge(f, NoFilterChange) == f
  {
  }

  /**
   * Only the keys the patch carries change: every other field keeps its value, and
   * merging the same patch again changes nothing more.
   */
  lemma MergeOnlySupplied(f: Filters, p: FiltersPatch)
    ensures var m := Merge(f, p);
      && (p.search.None? ==> m.search == f.search)
      && (p.categories.None? ==> m.categories == f.categories)
      && (p.priorities.None? ==> m.priorities == f.priorities)
      && (p.dateRange.None? ==> m.dateRange == f.dateRange)
      && (p.showCompleted.None? ==> m.showCompleted == f.showCompleted)
      && (p.search.Some? ==> m.search == p.search.value)
      && Merge(m, p) == m
  {
  }

  /** The hook's state: the current filter record. */
  class FilterState {
    var filters: Filters

    constructor()
      ensures filters == DefaultFilters
    {
      filters := DefaultFilters;
    }

    /** `filteredTasks` for the tasks the view passes in, at the instant `now`. */
    function Filtered(tasks: Option<seq<Task>>, now: int): seq<Task>
      reads this
    {
      FilteredTasks(tasks, filters, now)
    }

    /** `updateFilters(newFilters)`: the supplied keys overwrite, the others stay. */
    method UpdateFilters(p: FiltersPatch)
      modifies this
      ensures filters == Merge(old(filters), p)
    {
      filters := Merge(filters, p);
    }

    /** `clearFilters()`: back to the defaults, under which every task passes. */
    method ClearFilters()
      modifies this
      ensures filters == DefaultFilters
    {
      filters := DefaultFilters;
    }
  }
}
