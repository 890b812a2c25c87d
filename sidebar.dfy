/**
 * The sidebar's counters over every stored task: completed and total, due today,
 * due later than now, and one badge per category.
 */
module Sidebar {
  import opened Wrappers
  import opened Lists
  import opened Records
  import Text
  import Dates
  import TodayView
  import UpcomingView
  import CategoryView

  /** `taskDate.toDateString() === today.toDateString()`: due on the current calendar day. */
  function IsDueToday(now: int): Task -> bool {
    (t: Task) => t.dueDate.Some? && Dates.Day(t.dueDate.value) == Dates.Day(now)
  }

  /** `taskDate > today`: due strictly after the current instant. */
  function IsDueLater(now: int): Task -> bool {
    (t: Task) => t.dueDate.Some? && t.dueDate.value > now
  }

  /** `todayTasks`. */
  function TodayCount(s: seq<Task>, now: int): (r: nat)
    ensures r <= |s|
  {
    Count(s, IsDueToday(now))
  }

  /** `upcomingTasks`. */
  function UpcomingCount(s: seq<Task>, now: int): (r: nat)
    ensures r <= |s|
  {
    Count(s, IsDueLater(now))
  }

  /** The sidebar's "Today" counter is the length of the Today page's list for the same tasks. */
  lemma TodayCountIsTodayPage(s: seq<Task>, now: int)
    ensures TodayCount(s, now) == |TodayView.Loaded(s, now)|
  {
    FilterExt(s, IsDueToday(now), TodayView.IsDueToday(now));
  }

  /**
   * The "Upcoming" counter uses the current instant rather than the start of
   * tomorrow, so it counts at least every task the Upcoming page lists.
   */
  lemma UpcomingCountCoversPage(s: seq<Task>, now: int)
    ensures |UpcomingView.Loaded(s, now)| <= UpcomingCount(s, now)
  {
    forall t | UpcomingView.IsUpcoming(now)(t)
      ensures IsDueLater(now)(t)
    {
      UpcomingView.QualifiesIsLater(t, now);
    }
    FilterMono(s, UpcomingView.IsUpcoming(now), IsDueLater(now));
  }

  /**
   * A task due later today counts as due today and as upcoming at once, and the
   * Upcoming page does not list it.
   */
  lemma LaterTodayCountsTwice(t: Task, now: int)
    requires t.dueDate.Some? && now < t.dueDate.value < Dates.StartOfTomorrow(now)
    ensures IsDueToday(now)(t) && IsDueLater(now)(t) && !UpcomingView.Qualifies(t, now)
  {
    Dates.TodayIff(t.dueDate.value, now);
  }

  /**
   * The badge of a category: the number of tasks whose category string is the
   * category's Id, shown only when positive.
   */
  function Badge(s: seq<Task>, c: Category): (r: Option<nat>)
    ensures r.Some? <==> exists t :: t in s && t.categoryId == Some(Text.IntToString(c.id))
    ensures r.Some? ==> r.value > 0
  {
    var n := Count(s, CategoryView.InCategory(c));
    FilterMembers(s, CategoryView.InCategory(c));
    if n > 0 then
      assert Filter(s, CategoryView.InCategory(c))[0] in Filter(s, CategoryView.InCategory(c));
      Some(n)
    else None
  }

  /**
   * With unique category Ids, a category shows a badge exactly when the Category
   * page, given the same tasks, has a group for it, and the badge is the size of
   * that group.
   */
  lemma BadgeIsGroupSize(s: seq<Task>, categories: seq<Category>, c: Category)
    requires UniqueCategoryIds(categories) && c in categories
    ensures var g := CategoryView.GroupsOf(categories, s);
      (Badge(s, c).Some? <==> c.id in g) && (c.id in g ==> Badge(s, c).value == |g[c.id].tasks|)
  {
    CategoryView.GroupOfCategory(categories, s, c);
  }

  /** The sidebar's state; a failed load only logs, and keeps both lists. */
  class SidebarState {
    var tasks: seq<Task>
    var categories: seq<Category>

    constructor()
      ensures tasks == [] && categories == []
    {
      tasks := [];
      categories := [];
    }

    method LoadData(fetchedTasks: Option<seq<Task>>, fetchedCategories: Option<seq<Category>>)
      modifies this
      ensures fetchedTasks.Some? && fetchedCategories.Some? ==>
        tasks == fetchedTasks.value && categories == fetchedCategories.value
      ensures fetchedTasks.None? || fetchedCategories.None? ==>
        tasks == old(tasks) && categories == old(categories)
    {
      if fetchedTasks.Some? && fetchedCategories.Some? {
        tasks := fetchedTasks.value;
        categories := fetchedCategories.value;
      }
    }
  }
}
