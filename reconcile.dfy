/**
 * The three ways every page writes a store result back into its own `tasks` state:
 * `prev.map(task => task.Id === updated.Id ? updated : task)`,
 * `prev.filter(task => task.Id !== id)` and `[newTask, ...prev]`.
 */
module Reconcile {
  import opened Lists
  import opened Records

  /** `prev.map(task => task.Id === u.Id ? u : task)`. */
  function ReplaceById(s: seq<Task>, u: Task): (r: seq<Task>)
    ensures |r| == |s|
  {
    if s == [] then [] else [if s[0].id == u.id then u else s[0]] + ReplaceById(s[1..], u)
  }

  /** `prev.filter(task => task.Id !== id)`: every task of that Id dropped, the rest kept in order. */
  function RemoveById(s: seq<Task>, id: int): (r: seq<Task>)
    ensures IsSubsequence(r, s)
    ensures forall t :: t in r <==> t in s && t.id != id
  {
    FilterMembers(s, OtherId(id));
    FilterIsSubsequence(s, OtherId(id));
    Filter(s, OtherId(id))
  }

  /** Every task of the list satisfies `p`. */
  predicate All(s: seq<Task>, p: Task -> bool) {
    forall t :: t in s ==> p(t)
  }

  /**
   * Replacing keeps the length and every position: a task with the Id of `u` becomes
   * `u`, every other task stays where it was.
   */
  lemma {:induction false} ReplacePointwise(s: seq<Task>, u: Task)
    ensures var r := ReplaceById(s, u);
      forall i :: 0 <= i < |s| ==> r[i] == if s[i].id == u.id then u else s[i]
  {
    if s != [] {
      ReplacePointwise(s[1..], u);
    }
  }

  /** Replacing never changes the Ids of the list or their order. */
  lemma ReplaceKeepsIds(s: seq<Task>, u: Task)
    ensures TaskIds(ReplaceById(s, u)) == TaskIds(s)
  {
    ReplacePointwise(s, u);
  }

  /** Replacing with a task whose Id the list does not hold changes nothing. */
  lemma ReplaceUnknown(s: seq<Task>, u: Task)
    requires u.id !in TaskIds(s)
    ensures ReplaceById(s, u) == s
  {
    ReplacePointwise(s, u);
    assert forall i :: 0 <= i < |s| ==> TaskIds(s)[i] == s[i].id;
  }

  /**
   * After replacing, a task is in the list exactly when it was there with another Id,
   * or it is `u` and the list held a task of that Id: a replacement never adds a task
   * that was not there.
   */
  lemma ReplaceMembers(s: seq<Task>, u: Task)
    ensures forall t :: t in ReplaceById(s, u) <==>
      (t in s && t.id != u.id) || (t == u && u.id in TaskIds(s))
  {
    var r := ReplaceById(s, u);
    ReplacePointwise(s, u);
    forall t | t in r
      ensures (t in s && t.id != u.id) || (t == u && u.id in TaskIds(s))
    {
      var i :| 0 <= i < |r| && r[i] == t;
      assert TaskIds(s)[i] == s[i].id;
    }
    forall t | (t in s && t.id != u.id) || (t == u && u.id in TaskIds(s))
      ensures t in r
    {
      if t in s && t.id != u.id {
        var i :| 0 <= i < |s| && s[i] == t;
        assert r[i] == t;
      } else {
        var i :| 0 <= i < |s| && TaskIds(s)[i] == u.id;
        assert r[i] == u;
      }
    }
  }

  /** A property every listed task and the replacement have survives the replacement. */
  lemma ReplaceKeepsAll(s: seq<Task>, u: Task, p: Task -> bool)
    requires All(s, p) && p(u)
    ensures All(ReplaceById(s, u), p)
  {
    ReplaceMembers(s, u);
  }

  /**
   * Replacing a task and then removing its Id is the same as removing it: an update
   * that takes a task out of a page acts as a delete.
   */
  lemma {:induction false} ReplaceThenRemove(s: seq<Task>, u: Task)
    ensures RemoveById(ReplaceById(s, u), u.id) == RemoveById(s, u.id)
  {
    if s != [] {
      ReplaceThenRemove(s[1..], u);
      var r := ReplaceById(s, u);
      assert r[1..] == ReplaceById(s[1..], u);
    }
  }

  /** Removing an Id that no listed task has changes nothing. */
  lemma RemoveUnknown(s: seq<Task>, id: int)
    requires id !in TaskIds(s)
    ensures RemoveById(s, id) == s
  {
    forall i | 0 <= i < |s|
      ensures OtherId(id)(s[i])
    {
      assert TaskIds(s)[i] == s[i].id;
    }
    FilterAll(s, OtherId(id));
  }

  /** With unique Ids, removing a listed Id drops exactly one task. */
  lemma RemoveOne(s: seq<Task>, id: int)
    requires UniqueIds(s) && id in TaskIds(s)
    ensures |RemoveById(s, id)| == |s| - 1
  {
    var k :| 0 <= k < |s| && TaskIds(s)[k] == id;
    forall i | 0 <= i < |s| && i != k
      ensures OtherId(id)(s[i])
    {
    }
    FilterDropsOne(s, k, OtherId(id));
  }
}
