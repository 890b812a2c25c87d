/**
 * The `reduce` the date-grouped pages run over their filtered tasks: every element
 * with a key is pushed onto the array of that key, created at its first element; an
 * element without a key is skipped.
 */
module Grouping {
  import opened Wrappers
  import opened Lists

  /** `x => key(x) === k`: the elements of group `k`. */
  function HasKey<T>(key: T -> Option<int>, k: int): T -> bool {
    x => key(x) == Some(k)
  }

  /**
   * `groups` is the grouping of `s` by `key`: one group per key that some element
   * has, holding the elements of that key in list order.
   */
  ghost predicate GroupedBy<T>(s: seq<T>, key: T -> Option<int>, groups: map<int, seq<T>>) {
    && (forall k :: k in groups <==> exists i :: 0 <= i < |s| && key(s[i]) == Some(k))
    && (forall k :: k in groups ==> groups[k] == Filter(s, HasKey(key, k)))
  }

  /** One step of the accumulator: `x` pushed onto the group of its key, if it has one. */
  function Pushed<T>(groups: map<int, seq<T>>, key: T -> Option<int>, x: T): map<int, seq<T>> {
    match key(x)
    case None => groups
    case Some(k) => groups[k := (if k in groups then groups[k] else []) + [x]]
  }

  /** Pushing the next element turns the grouping of a prefix into that of the longer prefix. */
  lemma PushedStep<T(!new)>(s: seq<T>, key: T -> Option<int>, groups: map<int, seq<T>>, x: T)
    requires GroupedBy(s, key, groups)
    ensures GroupedBy(s + [x], key, Pushed(groups, key, x))
  {
    var t, g := s + [x], Pushed(groups, key, x);
    forall k
      ensures k in g <==> exists i :: 0 <= i < |t| && key(t[i]) == Some(k)
    {
      if exists i :: 0 <= i < |t| && key(t[i]) == Some(k) {
        var i :| 0 <= i < |t| && key(t[i]) == Some(k);
        if i < |s| {
          assert key(s[i]) == Some(k);
        }
      }
      if k in groups {
        var i :| 0 <= i < |s| && key(s[i]) == Some(k);
        assert t[i] == s[i];
      }
      if key(x) == Some(k) {
        assert t[|s|] == x;
      }
    }
    forall k | k in g
      ensures g[k] == Filter(t, HasKey(key, k))
    {
      FilterAppend(s, [x], HasKey(key, k));
      if k !in groups {
        FilterNone(s, HasKey(key, k));
      }
    }
  }

  /** The accumulator loop: one pass, pushing each keyed element onto its group. */
  method GroupBy<T(!new)>(s: seq<T>, key: T -> Option<int>) returns (groups: map<int, seq<T>>)
    ensures GroupedBy(s, key, groups)
  {
    groups := map[];
    var n := 0;
    while n < |s|
      invariant 0 <= n <= |s|
      invariant GroupedBy(s[..n], key, groups)
    {
      var x := s[n];
      assert s[..n + 1] == s[..n] + [x];
      PushedStep(s[..n], key, groups, x);
      match key(x) {
        case None =>
        case Some(k) =>
          if k in groups {
            groups := groups[k := groups[k] + [x]];
          } else {
            groups := groups[k := [x]];
          }
      }
      n := n + 1;
    }
    assert s[..n] == s;
  }

  /**
   * Every element with a key is in the group of that key and in no other group; an
   * element without a key is in no group.
   */
  lemma {:induction false} ExactlyOneGroup<T(!new)>(s: seq<T>, key: T -> Option<int>, groups: map<int, seq<T>>, x: T)
    requires GroupedBy(s, key, groups)
    requires x in s
    ensures key(x).Some? ==> key(x).value in groups && x in groups[key(x).value]
    ensures forall k :: k in groups && key(x) != Some(k) ==> x !in groups[k]
  {
    var i :| 0 <= i < |s| && s[i] == x;
    forall k | k in groups
      ensures x in groups[k] <==> key(x) == Some(k)
    {
      FilterMembers(s, HasKey(key, k));
    }
    if key(x).Some? {
      assert key(s[i]) == Some(key(x).value);
      FilterMembers(s, HasKey(key, key(x).value));
    }
  }
}
