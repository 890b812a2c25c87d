/**
 * The filter bar: a category select, a date-range select, a "Show completed" box and
 * the priority badges, each handing the hook a whole new filter record, and a Clear
 * button shown while any of those four restricts the list.
 */
module FilterBar {
  import opened Wrappers
  import opened Records
  import opened TaskFilters

  /** `categoryId === "all" ? [] : [categoryId]`. */
  function CategoryChoice(categoryId: string): (r: seq<string>)
    ensures |r| <= 1
    ensures r == [] <==> categoryId == "all"
    ensures r != [] ==> r[0] == categoryId
  {
    if categoryId == "all" then [] else [categoryId]
  }

  /** `handleCategoryChange`. */
  function OnCategoryChange(f: Filters, categoryId: string): Filters {
    f.(categories := CategoryChoice(categoryId))
  }

  /** `handleDateRangeChange`. */
  function OnDateRangeChange(f: Filters, r: DateRange): Filters {
    f.(dateRange := r)
  }

  /** `handleShowCompletedChange`. */
  function OnShowCompletedChange(f: Filters, showCompleted: bool): Filters {
    f.(showCompleted := showCompleted)
  }

  /** The priority badges' callback. */
  function OnPriorityChange(f: Filters, priorities: seq<string>): Filters {
    f.(priorities := priorities)
  }

  /** `filters.categories[0] || "all"`: the value the category select shows. */
  function CategorySelectValue(f: Filters): string {
    if f.categories == [] || f.categories[0] == "" then "all" else f.categories[0]
  }

  /** `hasActiveFilters`: the search text plays no part. */
  predicate HasActiveFilters(f: Filters) {
    |f.categories| > 0 || |f.priorities| > 0 || f.dateRange != AllTime || !f.showCompleted
  }

  /**
   * The Clear button is rendered exactly when the `filters` prop, search aside, is
   * not the record `clearFilters` restores. When the bar is handed the hook's own
   * record, as on the All Tasks page, it shows exactly when clearing would change the
   * list's restrictions; the Archive page hands it another record (see
   * `ArchiveView.BarFilters`).
   */
  function ShowsClear(f: Filters): (r: bool)
    ensures r <==> f.(search := DefaultFilters.search) != DefaultFilters
  {
    ActiveIffNotDefault(f);
    HasActiveFilters(f)
  }

  /** The record as an `updateFilters` argument: every key present. */
  function WholePatch(f: Filters): (r: FiltersPatch)
    ensures forall g :: Merge(g, r) == f
  {
    FiltersPatch(Some(f.search), Some(f.categories), Some(f.priorities), Some(f.dateRange), Some(f.showCompleted))
  }

  /**
   * When the bar is handed the hook's own record `f`, as on the All Tasks page,
   * whatever any handler builds, merged into that state, differs from it in the
   * handler's own field at most, and a category choice leaves at most one category
   * selected.
   */
  lemma HandlersChangeOneField(f: Filters, categoryId: string, r: DateRange, showCompleted: bool, priorities: seq<string>)
    ensures var m := Merge(f, WholePatch(OnCategoryChange(f, categoryId)));
      m.(categories := f.categories) == f && |m.categories| <= 1
    ensures Merge(f, WholePatch(OnDateRangeChange(f, r))) == f.(dateRange := r)
    ensures Merge(f, WholePatch(OnShowCompletedChange(f, showCompleted))) == f.(showCompleted := showCompleted)
    ensures Merge(f, WholePatch(OnPriorityChange(f, priorities))) == f.(priorities := priorities)
  {
  }

  /**
   * The category select shows back what was chosen: "all" for "all", and any other
   * non-empty category Id for itself.
   */
  lemma CategorySelectShowsChoice(f: Filters, categoryId: string)
    requires categoryId != ""
    ensures CategorySelectValue(OnCategoryChange(f, categoryId)) == categoryId
  {
  }

  /**
   * A filter is active exactly when the record, search aside, differs from the
   * default one that `clearFilters` restores.
   */
  lemma ActiveIffNotDefault(f: Filters)
    ensures HasActiveFilters(f) <==> f.(search := DefaultFilters.search) != DefaultFilters
    ensures !HasActiveFilters(DefaultFilters)
  {
    if !HasActiveFilters(f) {
      assert f.categories == [] && f.priorities == [];
    }
  }

  /**
   * With no active filter, the list filtered by that same record holds exactly the
   * tasks whose title matches the search, in their order: where the bar is handed the
   * hook's own record, hiding the Clear button never hides a restriction other than
   * the search.
   */
  lemma InactiveKeepsSearchMatches(s: seq<Task>, f: Filters, now: int)
    requires !HasActiveFilters(f)
    ensures FilteredTasks(Some(s), f, now) == FilteredTasks(Some(s), DefaultFilters.(search := f.search), now)
    ensures forall t :: t in FilteredTasks(Some(s), f, now) <==> t in s && PassesSearch(f, t)
  {
    ActiveIffNotDefault(f);
    assert f == DefaultFilters.(search := f.search);
    forall t
      ensures t in FilteredTasks(Some(s), f, now) <==> t in s && PassesSearch(f, t)
    {
      KeptIff(s, f, now, t);
    }
  }
}
