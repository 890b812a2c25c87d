/**
 * The priority badges of the filter bar: one badge per priority, highlighted when
 * that priority is selected, and a click that adds or removes it.
 */
module PriorityFilter {
  import opened Lists

  /** The badge values, in the order they are shown. */
  const Priorities: seq<string> := ["high", "medium", "low"]

  /**
   * `togglePriority(priority)`: a selected priority is removed wherever it occurs,
   * any other is appended at the end.
   */
  function Toggle(selected: seq<string>, priority: string): (r: seq<string>)
    ensures priority in r <==> priority !in selected
    ensures forall q :: q != priority ==> multiset(r)[q] == multiset(selected)[q]
    ensures priority !in selected ==> |r| == |selected| + 1 && r[..|selected|] == selected
    ensures priority in selected ==> IsSubsequence(r, selected)
  {
    if priority in selected then RemoveAll(selected, priority)
    else
      assert (selected + [priority])[..|selected|] == selected;
      selected + [priority]
  }

  /** Clicking a badge that was not selected twice gives back the original selection. */
  lemma ToggleTwiceAbsent(selected: seq<string>, priority: string)
    requires priority !in selected
    ensures Toggle(Toggle(selected, priority), priority) == selected
  {
    RemoveAllSnoc(selected, priority);
    RemoveAllAbsent(selected, priority);
  }

  /**
   * Clicking a selected badge twice removes its repeats and puts it last, after the
   * other selected priorities in their order.
   */
  lemma ToggleTwicePresent(selected: seq<string>, priority: string)
    requires priority in selected
    ensures Toggle(Toggle(selected, priority), priority) == RemoveAll(selected, priority) + [priority]
  {
  }

  /** `selectedPriorities.includes(priority.value)`: the ring around a badge. */
  predicate Highlighted(selected: seq<string>, value: string) {
    value in selected
  }

  /** After a click the clicked badge's highlight flips and every other badge keeps its own. */
  lemma ToggleFlipsOneBadge(selected: seq<string>, priority: string, value: string)
    ensures Highlighted(Toggle(selected, priority), value) <==>
      (if value == priority then !Highlighted(selected, value) else Highlighted(selected, value))
  {
    if value != priority {
      assert multiset(Toggle(selected, priority))[value] == multiset(selected)[value];
    }
  }
}
