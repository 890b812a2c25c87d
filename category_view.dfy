/**
 * The Category page, reached with an optional `categoryId` route parameter: the
 * tasks of that category (all tasks without one), the category it names, the page
 * title, and, without a route parameter, the tasks grouped by category.
 */
module CategoryView {
  import opened Wrappers
  import opened Lists
  import opened Records
  import opened Reconcile
  import Text
  import CategoryService

  /** `if (categoryId)`: a route parameter that is present and not the empty string. */
  predicate Routed(route: Option<string>) {
    route.Some? && route.value != []
  }

  /** `task.categoryId === categoryId`. */
  function InRoute(route: string): Task -> bool {
    (t: Task) => t.categoryId == Some(route)
  }

  /** `loadData`'s task list: the tasks whose category string is the route's, or all tasks. */
  function Loaded(all: seq<Task>, route: Option<string>): (r: seq<Task>)
    ensures Routed(route) ==> IsSubsequence(r, all)
    ensures Routed(route) ==> forall t :: t in r <==> t in all && t.categoryId == route
    ensures !Routed(route) ==> r == all
  {
    if Routed(route) then
      FilterMembers(all, InRoute(route.value));
      FilterIsSubsequence(all, InRoute(route.value));
      Filter(all, InRoute(route.value))
    else all
  }

  /**
   * `categoriesData.find(cat => cat.Id === parseInt(categoryId))`: a parameter that
   * does not parse (`NaN`) matches no category.
   */
  function Current(categories: seq<Category>, route: Option<string>): Option<Category> {
    if Routed(route) then
      match Text.ParseInt(route.value)
      case None => None
      case Some(n) => CategoryService.FindCategory(categories, n)
    else None
  }

  /** `getPageTitle()`. */
  function PageTitle(current: Option<Category>): string {
    match current
    case Some(c) => c.name + " Tasks"
    case None => "All Categories"
  }

  /** `handleTaskAdded`: prepended without a route parameter or when its category matches. */
  function Added(s: seq<Task>, t: Task, route: Option<string>): seq<Task> {
    if !Routed(route) || t.categoryId == route then [t] + s else s
  }

  /**
   * `handleTaskUpdated`: the task of that Id replaced; under a route parameter it is
   * dropped when its category no longer matches.
   */
  function Updated(s: seq<Task>, u: Task, route: Option<string>): seq<Task> {
    var m := ReplaceById(s, u);
    if Routed(route) && u.categoryId != route then RemoveById(m, u.id) else m
  }

  /** Every listed task belongs to the route's category (always true without a route parameter). */
  predicate Valid(s: seq<Task>, route: Option<string>) {
    Routed(route) ==> All(s, InRoute(route.value))
  }

  /** Adding keeps the page valid; the task is prepended exactly when it belongs. */
  lemma AddKeepsValid(s: seq<Task>, t: Task, route: Option<string>)
    requires Valid(s, route)
    ensures Valid(Added(s, t, route), route)
    ensures Added(s, t, route) == [t] + s <==> !Routed(route) || t.categoryId == route
    ensures Added(s, t, route) != [t] + s ==> Added(s, t, route) == s
  {
    if Added(s, t, route) == [t] + s {
      assert |Added(s, t, route)| != |s|;
    }
  }

  /**
   * Updating keeps the page valid, never brings in a task that was not listed, and
   * under a route parameter a task moved to another category acts as a delete.
   */
  lemma UpdateKeepsValid(s: seq<Task>, u: Task, route: Option<string>)
    requires Valid(s, route)
    ensures Valid(Updated(s, u, route), route)
    ensures forall t :: t in Updated(s, u, route) ==> t in s || (t == u && u.id in TaskIds(s))
    ensures Routed(route) && u.categoryId != route ==> Updated(s, u, route) == RemoveById(s, u.id)
  {
    ReplaceMembers(s, u);
    ReplaceThenRemove(s, u);
  }

  /** The route built from a stored category's Id names that category and titles the page with it. */
  lemma TitleOfCategoryRoute(categories: seq<Category>, c: Category)
    requires UniqueCategoryIds(categories) && c in categories
    ensures Current(categories, Some(Text.IntToString(c.id))) == Some(c)
    ensures PageTitle(Current(categories, Some(Text.IntToString(c.id)))) == c.name + " Tasks"
  {
    Text.ParseIntOfIntToString(c.id);
    var i :| 0 <= i < |categories| && categories[i] == c;
    assert CategoryIds(categories)[i] == c.id;
    var found := CategoryService.FindCategory(categories, c.id).value;
    var j :| 0 <= j < |categories| && categories[j] == found;
    assert i == j;
  }

  /**
   * Without a route parameter, with one that does not parse, or with one that names
   * no stored category, the title is "All Categories".
   */
  lemma TitleOtherwise(categories: seq<Category>, route: Option<string>)
    requires !Routed(route) || Text.ParseInt(route.value).None?
      || Text.ParseInt(route.value).value !in CategoryIds(categories)
    ensures PageTitle(Current(categories, route)) == "All Categories"
  {
  }

  /** `task => task.categoryId === category.Id.toString()`. */
  function InCategory(c: Category): Task -> bool {
    (t: Task) => t.categoryId == Some(Text.IntToString(c.id))
  }

  datatype CategoryGroup = CategoryGroup(category: Category, tasks: seq<Task>)

  /** What `getTasksByCategory` returns: the filtered list itself, or the groups keyed by category Id. */
  datatype Listing = Single(tasks: seq<Task>) | Grouped(groups: map<int, CategoryGroup>)

  /**
   * The `reduce` over the categories, left to right: a category with at least one
   * filtered task gets the group of those tasks under its Id.
   */
  function GroupsOf(categories: seq<Category>, filtered: seq<Task>): map<int, CategoryGroup> {
    if categories == [] then map[]
    else
      var groups := GroupsOf(categories[..|categories| - 1], filtered);
      var c := categories[|categories| - 1];
      var ct := Filter(filtered, InCategory(c));
      if |ct| > 0 then groups[c.id := CategoryGroup(c, ct)] else groups
  }

  /** `getTasksByCategory()`. */
  function TasksByCategory(route: Option<string>, categories: seq<Category>, filtered: seq<Task>): Listing {
    if Routed(route) then Single(filtered) else Grouped(GroupsOf(categories, filtered))
  }

  /**
   * Every group belongs to a listed category with that Id and holds exactly that
   * category's filtered tasks, in filtered order, at least one; every category with
   * a filtered task has a group.
   */
  lemma {:induction false} GroupsAreCategories(categories: seq<Category>, filtered: seq<Task>)
    ensures var g := GroupsOf(categories, filtered);
      && (forall k :: k in g ==>
            g[k].category in categories && g[k].category.id == k
            && g[k].tasks == Filter(filtered, InCategory(g[k].category)) && g[k].tasks != [])
      && (forall c :: c in categories && Filter(filtered, InCategory(c)) != [] ==> c.id in g)
  {
    if categories != [] {
      var init := categories[..|categories| - 1];
      GroupsAreCategories(init, filtered);
      assert categories == init + [categories[|categories| - 1]];
    }
  }

  /** With unique category Ids, two listed categories with the same Id are the same category. */
  lemma SameIdSameCategory(categories: seq<Category>, a: Category, b: Category)
    requires UniqueCategoryIds(categories) && a in categories && b in categories && a.id == b.id
    ensures a == b
  {
    var i :| 0 <= i < |categories| && categories[i] == a;
    var j :| 0 <= j < |categories| && categories[j] == b;
    assert i == j;
  }

  /** With unique category Ids, the group of a category holds exactly its filtered tasks. */
  lemma GroupOfCategory(categories: seq<Category>, filtered: seq<Task>, c: Category)
    requires UniqueCategoryIds(categories) && c in categories
    ensures var g := GroupsOf(categories, filtered);
      (c.id in g <==> exists t :: t in filtered && t.categoryId == Some(Text.IntToString(c.id)))
      && (c.id in g ==> g[c.id] == CategoryGroup(c, Filter(filtered, InCategory(c))))
  {
    var g := GroupsOf(categories, filtered);
    var ct := Filter(filtered, InCategory(c));
    GroupsAreCategories(categories, filtered);
    assert ct != [] <==> exists t :: t in filtered && t.categoryId == Some(Text.IntToString(c.id)) by {
      FilterMembers(filtered, InCategory(c));
      if ct != [] {
        assert ct[0] in ct;
      }
    }
    if c.id in g {
      assert g[c.id].category in categories && g[c.id].category.id == c.id;
      SameIdSameCategory(categories, g[c.id].category, c);
    }
  }

  /** A task whose category string names no listed category is in no group. */
  lemma OrphanInNoGroup(categories: seq<Category>, filtered: seq<Task>, t: Task)
    requires forall c :: c in categories ==> t.categoryId != Some(Text.IntToString(c.id))
    ensures var g := GroupsOf(categories, filtered);
      forall k :: k in g ==> t !in g[k].tasks
  {
    var g := GroupsOf(categories, filtered);
    GroupsAreCategories(categories, filtered);
    forall k | k in g
      ensures t !in g[k].tasks
    {
      FilterMembers(filtered, InCategory(g[k].category));
    }
  }

  const LoadError := "Failed to load category tasks. Please try again."

  /** The page's state, for the route parameter it was opened with. */
  class CategoryPage {
    const route: Option<string>
    var tasks: seq<Task>
    var categories: seq<Category>
    var currentCategory: Option<Category>
    var error: string

    constructor(route: Option<string>)
      ensures this.route == route
      ensures tasks == [] && categories == [] && currentCategory.None? && error == ""
    {
      this.route := route;
      tasks := [];
      categories := [];
      currentCategory := None;
      error := "";
    }

    /**
     * `loadData`: both store reads must succeed; then the categories are kept, the
     * route's category looked up and its tasks selected.
     */
    method LoadData(fetchedTasks: Option<seq<Task>>, fetchedCategories: Option<seq<Category>>)
      modifies this
      ensures fetchedTasks.Some? && fetchedCategories.Some? ==>
        && tasks == Loaded(fetchedTasks.value, route)
        && categories == fetchedCategories.value
        && currentCategory == Current(fetchedCategories.value, route)
        && error == ""
      ensures fetchedTasks.None? || fetchedCategories.None? ==>
        && tasks == old(tasks) && categories == old(categories)
        && currentCategory == old(currentCategory) && error == LoadError
    {
      error := "";
      if fetchedTasks.Some? && fetchedCategories.Some? {
        categories := fetchedCategories.value;
        if Routed(route) {
          currentCategory := Current(categories, route);
          tasks := Filter(fetchedTasks.value, InRoute(route.value));
        } else {
          currentCategory := None;
          tasks := fetchedTasks.value;
        }
      } else {
        error := LoadError;
      }
    }

    method TaskAdded(t: Task)
      modifies this
      ensures tasks == Added(old(tasks), t, route)
      ensures categories == old(categories) && currentCategory == old(currentCategory) && error == old(error)
    {
      if !Routed(route) || t.categoryId == route {
        tasks := [t] + tasks;
      }
    }

    method TaskUpdated(u: Task)
      modifies this
      ensures tasks == Updated(old(tasks), u, route)
      ensures categories == old(categories) && currentCategory == old(currentCategory) && error == old(error)
    {
      var m := ReplaceById(tasks, u);
      if Routed(route) && u.categoryId != route {
        m := RemoveById(m, u.id);
      }
      tasks := m;
    }

    method TaskDeleted(id: int)
      modifies this
      ensures tasks == RemoveById(old(tasks), id)
      ensures categories == old(categories) && currentCategory == old(currentCategory) && error == old(error)
    {
      tasks := RemoveById(tasks, id);
    }
  }
}
