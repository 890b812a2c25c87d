/**
 * The counters the pages and the sidebar show above a task list: completed, active
 * (open) and total, and the completion percentage derived from them.
 */
module TaskCounts {
  import opened Lists
  import opened Records

  function IsCompleted(): Task -> bool {
    (t: Task) => t.completed
  }

  function IsOpen(): Task -> bool {
    (t: Task) => !t.completed
  }

  /** `tasks.filter(task => task.completed).length`. */
  function CompletedCount(s: seq<Task>): (r: nat)
    ensures r <= |s|
  {
    Count(s, IsCompleted())
  }

  /** `tasks.filter(t => !t.completed).length`: the "Active" counter. */
  function OpenCount(s: seq<Task>): (r: nat)
    ensures r <= |s|
  {
    Count(s, IsOpen())
  }

  /** Active and completed tasks together are all the tasks: the three counters agree. */
  lemma OpenPlusCompleted(s: seq<Task>)
    ensures OpenCount(s) + CompletedCount(s) == |s|
  {
    CountSplit(s, IsCompleted(), IsOpen());
  }

  /**
   * The completed counter is the total exactly when every task is completed, and 0
   * exactly when none is.
   */
  lemma {:induction false} CompletedCountBounds(s: seq<Task>)
    ensures CompletedCount(s) == |s| <==> forall t :: t in s ==> t.completed
    ensures CompletedCount(s) == 0 <==> forall t :: t in s ==> !t.completed
  {
    if s != [] {
      CompletedCountBounds(s[1..]);
      assert s == [s[0]] + s[1..];
    }
  }

  /**
   * `totalTasks > 0 ? (completedTasks / totalTasks) * 100 : 0`, in exact arithmetic:
   * 0 for an empty list, otherwise a percentage that is 100 only when every task is
   * completed.
   */
  function CompletionRate(s: seq<Task>): (r: real)
    ensures s == [] ==> r == 0.0
    ensures 0.0 <= r <= 100.0
    ensures s != [] ==> (r == 100.0 <==> CompletedCount(s) == |s|)
  {
    var completed, total := CompletedCount(s), |s|;
    if total > 0 then
      var q := completed as real / total as real;
      assert q * total as real == completed as real;
      assert q <= 1.0;
      q * 100.0
    else 0.0
  }
}
